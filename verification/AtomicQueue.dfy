/** The lock-free ring of AtomicQueueCommon with the four-state slots of AtomicQueue2 and AtomicQueueB2,
    as a machine of interleaved atomic steps: any number of threads, one access to shared memory per step,
    stale loads kept in the threads, and spurious failures of the weak compare-and-swap allowed.

    The flag `spsc` selects the single-producer/single-consumer branches; the flag `wrap` selects 32-bit
    counters, with `false` giving the idealised machine whose counters never wrap. The placement of
    remainders in the storage array is a table, of which only one-to-one-ness is used. */
module AtomicQueue {
  import opened Bits
  import opened IndexMap

  datatype Config = Config(slots: seq<nat>, spsc: bool, wrap: bool)
  {
    function Size(): nat { |slots| }
  }

  /** The queue of a given size whose index is shuffled by `bits`. */
  function QueueConfig(size: nat, bits: nat, spsc: bool, wrap: bool): Config {
    Config(Placement(size, bits), spsc, wrap)
  }

  datatype SlotState = EMPTY | STORING | STORED | LOADING

  datatype Op<V> = TryPush(pushed: V) | TryPop | Push(pushed: V) | Pop

  /** Where a thread stands; each name says which access comes next. */
  datatype Pc<V> =
    | Idle
    | PushLoad(value: V)                 // try_push: load head_
    | PushCheck(value: V, head: nat)     // load tail_, compare with the capacity
    | PushAdvance(value: V, head: nat)   // compare-and-swap (or, for spsc, store) head_
    | PushTake(value: V)                 // push: fetch_add (or, for spsc, load) head_
    | PushSlot(value: V, head: nat)      // wait for the slot to be EMPTY
    | PushWrite(value: V, head: nat)     // write the element
    | PushPublish(value: V, head: nat)   // store STORED
    | PopLoad
    | PopCheck(tail: nat)
    | PopAdvance(tail: nat)
    | PopTake
    | PopSlot(tail: nat)                 // wait for the slot to be STORED
    | PopRead(tail: nat)                 // move the element out
    | PopRelease(tail: nat, value: V)    // store EMPTY and return the value

  /** Bookkeeping no step depends on: values handed to pushes, values refused by a full queue, the value
      of each ticket in ticket order, and values returned by pops. */
  datatype Trace<V> = Trace(handed: seq<V>, refused: seq<V>, issued: seq<V>, taken: seq<V>)

  datatype State<V> = State(
    head: nat,
    tail: nat,
    states: seq<SlotState>,
    elements: seq<V>,
    threads: seq<Pc<V>>,
    trace: Trace<V>
  )

  /** What the scheduler and the hardware choose: an idle thread is called, a thread performs its next
      access (a moved-from element is left holding `residue`), or a weak compare-and-swap fails by itself. */
  datatype Event<V> = Call(op: Op<V>) | Go(residue: V) | Spurious

  datatype Action<V> = Action(tid: nat, event: Event<V>)

  // ---------------------------------------------------------------- counters and slots

  function Next(c: Config, k: nat): nat {
    if c.wrap then (k + 1) % WORD else k + 1
  }

  /** `static_cast<int>` of a 32-bit unsigned number. */
  function Signed(u: nat): int {
    if u < WORD / 2 then u else u - WORD
  }

  function Distance(c: Config, a: nat, b: nat): int {
    if c.wrap then Signed((a - b) % WORD) else a - b
  }

  function Capacity(c: Config): int {
    if c.wrap then Signed(c.Size() % WORD) else c.Size()
  }

  ghost predicate WfConfig(c: Config) { c.Size() > 0 && OneToOne(c.slots) }

  ghost function Slot(c: Config, ticket: nat): (i: nat)
    requires WfConfig(c)
    ensures i < c.Size()
  {
    c.slots[ticket % c.Size()]
  }

  lemma SlotsCollide(c: Config, a: nat, b: nat)
    requires WfConfig(c)
    ensures Slot(c, a) == Slot(c, b) <==> a % c.Size() == b % c.Size()
  {
    var x, y := a % c.Size(), b % c.Size();
    if x < y { assert c.slots[x] != c.slots[y]; }
    if y < x { assert c.slots[y] != c.slots[x]; }
  }

  // ---------------------------------------------------------------- steps

  ghost predicate Shape<V>(c: Config, s: State<V>) {
    WfConfig(c) && |s.states| == c.Size() && |s.elements| == c.Size()
  }

  ghost function Begin<V>(op: Op<V>): Pc<V> {
    match op
    case TryPush(v) => PushLoad(v)
    case TryPop => PopLoad
    case Push(v) => PushTake(v)
    case Pop => PopTake
  }

  ghost function Goto<V>(s: State<V>, tid: nat, pc: Pc<V>): State<V>
    requires tid < |s.threads|
  {
    s.(threads := s.threads[tid := pc])
  }

  ghost function IssuePush<V>(c: Config, s: State<V>, tid: nat, v: V, head: nat): State<V>
    requires tid < |s.threads|
  {
    Goto(s, tid, PushSlot(v, head)).(head := Next(c, head), trace := s.trace.(issued := s.trace.issued + [v]))
  }

  ghost function IssuePop<V>(c: Config, s: State<V>, tid: nat, tail: nat): State<V>
    requires tid < |s.threads|
  {
    Goto(s, tid, PopSlot(tail)).(tail := Next(c, tail))
  }

  /** try_push and push up to the ticket. */
  ghost function StepTryPush<V>(c: Config, s: State<V>, tid: nat, e: Event<V>): State<V>
    requires Shape(c, s) && tid < |s.threads|
  {
    match s.threads[tid]
    case PushLoad(v) => if e.Go? then Goto(s, tid, PushCheck(v, s.head)) else s
    case PushCheck(v, h) =>
      if e.Spurious? then s
      else if Distance(c, h, s.tail) >= Capacity(c) then
        Goto(s, tid, Idle).(trace := s.trace.(refused := s.trace.refused + [v]))
      else Goto(s, tid, PushAdvance(v, h))
    case PushAdvance(v, h) =>
      if c.spsc then if e.Go? then IssuePush(c, s, tid, v, h) else s
      else if e.Go? && s.head == h then IssuePush(c, s, tid, v, h)
      else Goto(s, tid, PushCheck(v, s.head))
    case PushTake(v) =>
      if e.Spurious? then s
      else if c.spsc then Goto(s, tid, PushAdvance(v, s.head))
      else IssuePush(c, s, tid, v, s.head)
    case _ => s
  }

  /** do_push_any: the ticket's slot goes EMPTY, STORING, STORED. */
  ghost function StepDoPush<V>(c: Config, s: State<V>, tid: nat, e: Event<V>): State<V>
    requires Shape(c, s) && tid < |s.threads|
  {
    match s.threads[tid]
    case PushSlot(v, h) =>
      if e.Spurious? || s.states[Slot(c, h)] != EMPTY then s
      else if c.spsc then Goto(s, tid, PushWrite(v, h))
      else Goto(s, tid, PushWrite(v, h)).(states := s.states[Slot(c, h) := STORING])
    case PushWrite(v, h) =>
      if e.Go? then Goto(s, tid, PushPublish(v, h)).(elements := s.elements[Slot(c, h) := v]) else s
    case PushPublish(v, h) =>
      if e.Go? then Goto(s, tid, Idle).(states := s.states[Slot(c, h) := STORED]) else s
    case _ => s
  }

  /** try_pop and pop up to the ticket. */
  ghost function StepTryPop<V>(c: Config, s: State<V>, tid: nat, e: Event<V>): State<V>
    requires Shape(c, s) && tid < |s.threads|
  {
    match s.threads[tid]
    case PopLoad => if e.Go? then Goto(s, tid, PopCheck(s.tail)) else s
    case PopCheck(t) =>
      if e.Spurious? then s
      else if Distance(c, s.head, t) <= 0 then Goto(s, tid, Idle)
      else Goto(s, tid, PopAdvance(t))
    case PopAdvance(t) =>
      if c.spsc then if e.Go? then IssuePop(c, s, tid, t) else s
      else if e.Go? && s.tail == t then IssuePop(c, s, tid, t)
      else Goto(s, tid, PopCheck(s.tail))
    case PopTake =>
      if e.Spurious? then s
      else if c.spsc then Goto(s, tid, PopAdvance(s.tail))
      else IssuePop(c, s, tid, s.tail)
    case _ => s
  }

  /** do_pop_any: the ticket's slot goes STORED, LOADING, EMPTY. */
  ghost function StepDoPop<V>(c: Config, s: State<V>, tid: nat, e: Event<V>): State<V>
    requires Shape(c, s) && tid < |s.threads|
  {
    match s.threads[tid]
    case PopSlot(t) =>
      if e.Spurious? || s.states[Slot(c, t)] != STORED then s
      else if c.spsc then Goto(s, tid, PopRead(t))
      else Goto(s, tid, PopRead(t)).(states := s.states[Slot(c, t) := LOADING])
    case PopRead(t) =>
      if e.Go? then
        Goto(s, tid, PopRelease(t, s.elements[Slot(c, t)])).(elements := s.elements[Slot(c, t) := e.residue])
      else s
    case PopRelease(t, v) =>
      if e.Go? then
        Goto(s, tid, Idle).(states := s.states[Slot(c, t) := EMPTY], trace := s.trace.(taken := s.trace.taken + [v]))
      else s
    case _ => s
  }

  ghost function StepCall<V>(s: State<V>, tid: nat, op: Op<V>): State<V>
    requires tid < |s.threads|
  {
    if !s.threads[tid].Idle? then s
    else if op.TryPush? || op.Push? then
      Goto(s, tid, Begin(op)).(trace := s.trace.(handed := s.trace.handed + [op.pushed]))
    else Goto(s, tid, Begin(op))
  }

  predicate TakesPush<V>(pc: Pc<V>) { pc.PushLoad? || pc.PushCheck? || pc.PushAdvance? || pc.PushTake? }

  predicate DoesPush<V>(pc: Pc<V>) { pc.PushSlot? || pc.PushWrite? || pc.PushPublish? }

  predicate TakesPop<V>(pc: Pc<V>) { pc.PopLoad? || pc.PopCheck? || pc.PopAdvance? || pc.PopTake? }

  predicate DoesPop<V>(pc: Pc<V>) { pc.PopSlot? || pc.PopRead? || pc.PopRelease? }

  /** One step of thread `a.tid`. Waiting on a slot is a step that changes nothing, and so are the
      speculative loads between two attempts. */
  ghost function Step<V>(c: Config, s: State<V>, a: Action<V>): (s': State<V>)
    requires Shape(c, s) && a.tid < |s.threads|
    ensures Shape(c, s') && |s'.threads| == |s.threads| && s'.threads == s.threads[a.tid := s'.threads[a.tid]]
  {
    var pc := s.threads[a.tid];
    if a.event.Call? then StepCall(s, a.tid, a.event.op)
    else if TakesPush(pc) then StepTryPush(c, s, a.tid, a.event)
    else if DoesPush(pc) then StepDoPush(c, s, a.tid, a.event)
    else if TakesPop(pc) then StepTryPop(c, s, a.tid, a.event)
    else StepDoPop(c, s, a.tid, a.event)
  }

  ghost predicate Schedule<V>(n: nat, run: seq<Action<V>>) {
    forall k | 0 <= k < |run| :: run[k].tid < n
  }

  /** The state after a whole run. */
  ghost function Run<V>(c: Config, s: State<V>, run: seq<Action<V>>): (s': State<V>)
    requires Shape(c, s) && Schedule(|s.threads|, run)
    ensures Shape(c, s') && |s'.threads| == |s.threads|
    decreases |run|
  {
    if run == [] then s else Run(c, Step(c, s, run[0]), run[1..])
  }

  lemma {:induction false} RunAppend<V>(c: Config, s: State<V>, a: seq<Action<V>>, b: seq<Action<V>>)
    requires Shape(c, s) && Schedule(|s.threads|, a) && Schedule(|s.threads|, b)
    ensures Schedule(|s.threads|, a + b) && Run(c, s, a + b) == Run(c, Run(c, s, a), b)
    decreases |a|
  {
    if a == [] {
      assert a + b == b;
    } else {
      assert (a + b)[1..] == a[1..] + b;
      RunAppend(c, Step(c, s, a[0]), a[1..], b);
    }
  }

  /** A run without the blocking push and pop. */
  ghost predicate TryOnly<V>(run: seq<Action<V>>) {
    forall k | 0 <= k < |run| :: !(run[k].event.Call? && (run[k].event.op.Push? || run[k].event.op.Pop?))
  }

  ghost predicate Initial<V>(c: Config, s: State<V>) {
    && Shape(c, s)
    && s.head == s.tail == 0
    && (forall i | 0 <= i < c.Size() :: s.states[i] == EMPTY)
    && (forall k | 0 <= k < |s.threads| :: s.threads[k] == Idle)
    && s.trace == Trace([], [], [], [])
  }
}
