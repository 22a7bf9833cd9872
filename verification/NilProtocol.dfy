/** The sentinel protocol of AtomicQueue and AtomicQueueB, in which a slot is one atomic cell that holds NIL
    or a value, and the proof that the four-state slots refine it. */
module NilProtocol {
  import opened AtomicQueue
  import opened Ledger
  import opened Conservation

  /** do_push_atomic and do_pop_atomic (compare-and-swap branches) in place of the slot phases; tickets are
      taken exactly as before. The cells are the elements; slot states play no part. */
  ghost function NilStep<V>(c: Config, nil: V, s: State<V>, a: Action<V>): (s': State<V>)
    requires Shape(c, s) && a.tid < |s.threads|
    ensures Shape(c, s') && |s'.threads| == |s.threads|
  {
    var pc := s.threads[a.tid];
    if a.event.Call? then StepCall(s, a.tid, a.event.op)
    else if TakesPush(pc) then StepTryPush(c, s, a.tid, a.event)
    else if TakesPop(pc) then StepTryPop(c, s, a.tid, a.event)
    else match pc
      case PushSlot(v, h) =>  // compare-and-swap NIL for the value
        if a.event.Spurious? || s.elements[Slot(c, h)] != nil then s
        else Goto(s, a.tid, Idle).(elements := s.elements[Slot(c, h) := v])
      case PopSlot(t) =>      // exchange the cell with NIL
        var found := s.elements[Slot(c, t)];
        if a.event.Spurious? || found == nil then s
        else Goto(s, a.tid, PopRelease(t, found)).(elements := s.elements[Slot(c, t) := nil])
      case PopRelease(t, v) =>
        if a.event.Spurious? then s
        else Goto(s, a.tid, Idle).(trace := s.trace.(taken := s.trace.taken + [v]))
      case _ => s
  }

  ghost function NilRun<V>(c: Config, nil: V, s: State<V>, run: seq<Action<V>>): (s': State<V>)
    requires Shape(c, s) && Schedule(|s.threads|, run)
    ensures Shape(c, s') && |s'.threads| == |s.threads|
    decreases |run|
  {
    if run == [] then s else NilRun(c, nil, NilStep(c, nil, s, run[0]), run[1..])
  }

  /** A four-state slot seen as a cell: its element while STORED, NIL otherwise. */
  ghost function Cell<V>(st: SlotState, el: V, nil: V): V { if st == STORED then el else nil }

  /** A push that has not published is still waiting for its cell; a pop that has claimed its slot already
      holds the value. */
  ghost function AbsPc<V>(c: Config, pc: Pc<V>, elements: seq<V>): Pc<V>
    requires WfConfig(c) && |elements| == c.Size()
  {
    match pc
    case PushWrite(v, h) => PushSlot(v, h)
    case PushPublish(v, h) => PushSlot(v, h)
    case PopRead(t) => PopRelease(t, elements[Slot(c, t)])
    case _ => pc
  }

  ghost function Abs<V>(c: Config, nil: V, s: State<V>): (n: State<V>)
    requires Shape(c, s)
    ensures Shape(c, n) && |n.threads| == |s.threads|
  {
    s.(states := seq(c.Size(), i => EMPTY),
       elements := seq(c.Size(), i requires 0 <= i < c.Size() => Cell(s.states[i], s.elements[i], nil)),
       threads := seq(|s.threads|, k requires 0 <= k < |s.threads| => AbsPc(c, s.threads[k], s.elements)))
  }

  ghost predicate CarriesNil<V>(nil: V, pc: Pc<V>) {
    (TakesPush(pc) || DoesPush(pc)) && pc.value == nil
  }

  /** NIL is never pushed, so it is never stored. */
  ghost predicate NilFree<V>(nil: V, s: State<V>) {
    && |s.states| == |s.elements|
    && (forall i | 0 <= i < |s.states| && s.states[i] == STORED :: s.elements[i] != nil)
    && (forall k | 0 <= k < |s.threads| :: !CarriesNil(nil, s.threads[k]))
  }

  ghost predicate PushesNotNil<V>(nil: V, a: Action<V>) {
    a.event.Call? && (a.event.op.TryPush? || a.event.op.Push?) ==> a.event.op.pushed != nil
  }

  ghost predicate SimInv<V(!new)>(c: Config, nil: V, s: State<V>) {
    LedgerInv(c, s) && Written(c, s) && NilFree(nil, s)
  }

  lemma SimInvStep<V(!new)>(c: Config, nil: V, s: State<V>, a: Action<V>)
    requires SimInv(c, nil, s) && a.tid < |s.threads| && PushesNotNil(nil, a)
    ensures SimInv(c, nil, Step(c, s, a))
  {
    LedgerStep(c, s, a);
    WrittenStep(c, s, a, nil);
    NilFreeStep(c, nil, s, a);
  }

  lemma NilFreeStep<V(!new)>(c: Config, nil: V, s: State<V>, a: Action<V>)
    requires SimInv(c, nil, s) && a.tid < |s.threads| && PushesNotNil(nil, a)
    ensures NilFree(nil, Step(c, s, a))
  {
    var pc := s.threads[a.tid];
    assert !CarriesNil(nil, pc);
    if DoesPush(pc) { OwnerSees(c, s, a.tid, Slot(c, pc.head)); }
    if DoesPop(pc) { OwnerSees(c, s, a.tid, Slot(c, pc.tail)); }
  }

  /** Ticket steps and calls do not look at slots. */
  lemma TicketStepsAgree<V(!new)>(c: Config, nil: V, s: State<V>, a: Action<V>)
    requires SimInv(c, nil, s) && a.tid < |s.threads|
    requires a.event.Call? || TakesPush(s.threads[a.tid]) || TakesPop(s.threads[a.tid]) || s.threads[a.tid].Idle?
    ensures Abs(c, nil, Step(c, s, a)) == NilStep(c, nil, Abs(c, nil, s), a)
  {
    var n, m := Abs(c, nil, Step(c, s, a)), NilStep(c, nil, Abs(c, nil, s), a);
    assert n.threads == m.threads;
  }

  /** Changing the element of a slot the mover owns, or its own state, is invisible to other threads. */
  lemma OthersLookTheSame<V(!new)>(c: Config, s: State<V>, tid: nat, i: nat, el: seq<V>)
    requires LedgerInv(c, s) && tid < |s.threads| && i < c.Size()
    requires |el| == c.Size() && forall j | 0 <= j < c.Size() && j != i :: el[j] == s.elements[j]
    requires el == s.elements || Owns(c, s.threads[tid], i)
    ensures forall k | 0 <= k < |s.threads| && k != tid ::
              AbsPc(c, s.threads[k], el) == AbsPc(c, s.threads[k], s.elements)
  {
    forall k | 0 <= k < |s.threads| && k != tid
      ensures AbsPc(c, s.threads[k], el) == AbsPc(c, s.threads[k], s.elements) {
      if Owns(c, s.threads[tid], i) { OwnersDiffer(c, s, tid, k, i); }
    }
  }

  /** The push takes effect at the store of STORED; its earlier steps are invisible. */
  lemma PushSimulates<V(!new)>(c: Config, nil: V, s: State<V>, a: Action<V>)
    requires SimInv(c, nil, s) && a.tid < |s.threads| && !a.event.Call? && DoesPush(s.threads[a.tid])
    ensures Abs(c, nil, Step(c, s, a))
            == if s.threads[a.tid].PushPublish? then NilStep(c, nil, Abs(c, nil, s), a) else Abs(c, nil, s)
  {
    var s', pc := Step(c, s, a), s.threads[a.tid];
    var i := Slot(c, pc.head);
    OwnerSees(c, s, a.tid, i);
    OthersLookTheSame(c, s, a.tid, i, s'.elements);
    var n, m := Abs(c, nil, s'), if pc.PushPublish? then NilStep(c, nil, Abs(c, nil, s), a) else Abs(c, nil, s);
    assert n.elements == m.elements;
    assert n.threads == m.threads;
  }

  /** The pop takes effect at the swap of STORED for LOADING. */
  lemma PopSimulates<V(!new)>(c: Config, nil: V, s: State<V>, a: Action<V>)
    requires SimInv(c, nil, s) && a.tid < |s.threads| && !a.event.Call? && DoesPop(s.threads[a.tid])
    ensures Abs(c, nil, Step(c, s, a))
            == if s.threads[a.tid].PopRead? then Abs(c, nil, s) else NilStep(c, nil, Abs(c, nil, s), a)
  {
    var s', pc := Step(c, s, a), s.threads[a.tid];
    var i := Slot(c, pc.tail);
    OwnerSees(c, s, a.tid, i);
    OthersLookTheSame(c, s, a.tid, i, s'.elements);
    var n, m := Abs(c, nil, s'), if pc.PopRead? then Abs(c, nil, s) else NilStep(c, nil, Abs(c, nil, s), a);
    assert n.elements == m.elements;
    assert n.threads == m.threads;
  }

  /** Which steps of the four-state machine the sentinel machine does not have. */
  ghost predicate Invisible<V>(s: State<V>, a: Action<V>)
    requires a.tid < |s.threads|
  {
    var pc := s.threads[a.tid];
    !a.event.Call? && (pc.PushSlot? || pc.PushWrite? || pc.PopRead?)
  }

  lemma StepRefines<V(!new)>(c: Config, nil: V, s: State<V>, a: Action<V>)
    requires SimInv(c, nil, s) && a.tid < |s.threads|
    ensures Abs(c, nil, Step(c, s, a))
            == if Invisible(s, a) then Abs(c, nil, s) else NilStep(c, nil, Abs(c, nil, s), a)
  {
    var pc := s.threads[a.tid];
    if a.event.Call? || TakesPush(pc) || TakesPop(pc) || pc.Idle? {
      TicketStepsAgree(c, nil, s, a);
    } else if DoesPush(pc) {
      PushSimulates(c, nil, s, a);
    } else {
      PopSimulates(c, nil, s, a);
    }
  }

  /** The visible steps of a run. */
  ghost function Visible<V>(c: Config, s: State<V>, run: seq<Action<V>>): (v: seq<Action<V>>)
    requires Shape(c, s) && Schedule(|s.threads|, run)
    ensures Schedule(|s.threads|, v)
    decreases |run|
  {
    if run == [] then []
    else (if Invisible(s, run[0]) then [] else [run[0]]) + Visible(c, Step(c, s, run[0]), run[1..])
  }

  lemma {:induction false} RunRefines<V(!new)>(c: Config, nil: V, s: State<V>, run: seq<Action<V>>)
    requires SimInv(c, nil, s) && Schedule(|s.threads|, run)
    requires forall k | 0 <= k < |run| :: PushesNotNil(nil, run[k])
    ensures NilRun(c, nil, Abs(c, nil, s), Visible(c, s, run)) == Abs(c, nil, Run(c, s, run))
    decreases |run|
  {
    if run != [] {
      assert PushesNotNil(nil, run[0]);
      StepRefines(c, nil, s, run[0]);
      SimInvStep(c, nil, s, run[0]);
      RunRefines(c, nil, Step(c, s, run[0]), run[1..]);
      var v := Visible(c, s, run);
      if !Invisible(s, run[0]) {
        assert v[0] == run[0] && v[1..] == Visible(c, Step(c, s, run[0]), run[1..]);
      } else {
        assert v == Visible(c, Step(c, s, run[0]), run[1..]);
      }
    }
  }

  /** Every run of the four-state queue, blocking operations included, is a run of the sentinel queue with its
      invisible steps left out: same calls, same refusals, same tickets, same values returned. */
  lemma FourStatesRefineNil<V(!new)>(c: Config, nil: V, s: State<V>, run: seq<Action<V>>)
    requires Ideal(c) && Initial(c, s) && Schedule(|s.threads|, run)
    requires forall k | 0 <= k < |run| :: PushesNotNil(nil, run[k])
    ensures var n := NilRun(c, nil, Abs(c, nil, s), Visible(c, s, run));
            && n.trace == Run(c, s, run).trace
            && n == Abs(c, nil, Run(c, s, run))
            && (forall i | 0 <= i < c.Size() :: Abs(c, nil, s).elements[i] == nil)
  {
    LedgerInit(c, s);
    RunRefines(c, nil, s, run);
  }
}
