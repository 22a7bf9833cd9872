/** Exactly when the ring is first-in first-out: which threads push and which pop decides. */
module Ordering {
  import opened AtomicQueue
  import opened Ledger
  import opened Conservation
  import Spsc
  import opened Overtaking

  /** What a thread does with the queue: it may push, pop, do both or neither. */
  datatype Role = Role(pushes: bool, pops: bool)

  ghost predicate InRole<V>(roles: seq<Role>, a: Action<V>) {
    a.event.Call? ==>
      a.tid < |roles| && if a.event.op.TryPush? || a.event.op.Push? then roles[a.tid].pushes else roles[a.tid].pops
  }

  ghost predicate Respects<V>(roles: seq<Role>, run: seq<Action<V>>) {
    forall k | 0 <= k < |run| :: InRole(roles, run[k])
  }

  ghost predicate NonePush(roles: seq<Role>) { forall k | 0 <= k < |roles| :: !roles[k].pushes }

  ghost predicate NonePop(roles: seq<Role>) { forall k | 0 <= k < |roles| :: !roles[k].pops }

  ghost predicate OnePushes(roles: seq<Role>) {
    forall j, k | 0 <= j < k < |roles| :: !(roles[j].pushes && roles[k].pushes)
  }

  ghost predicate OnePops(roles: seq<Role>) {
    forall j, k | 0 <= j < k < |roles| :: !(roles[j].pops && roles[k].pops)
  }

  ghost predicate OneSided(roles: seq<Role>) { forall k | 0 <= k < |roles| :: !(roles[k].pushes && roles[k].pops) }

  ghost predicate InOrder<V>(s: State<V>) { s.trace.taken <= s.trace.issued }

  /** One thread pushes at most, and one pops at most unless there is a single slot; or nothing ever gets
      through. */
  ghost predicate KeepsOrder(c: Config, roles: seq<Role>) {
    NonePush(roles) || NonePop(roles) || (OnePushes(roles) && (OnePops(roles) || c.Size() == 1))
  }

  // ---------------------------------------------------------------- threads keep to their roles

  ghost predicate RolesKept<V>(roles: seq<Role>, s: State<V>) {
    && |roles| == |s.threads|
    && forall k | 0 <= k < |roles| ::
         && (!roles[k].pops ==> !TakesPop(s.threads[k]) && !DoesPop(s.threads[k]))
         && (!roles[k].pushes ==> !TakesPush(s.threads[k]) && !DoesPush(s.threads[k]))
  }

  /** A thread in the middle of an operation stays in it or becomes idle. */
  lemma SameKind<V>(c: Config, s: State<V>, a: Action<V>)
    requires Shape(c, s) && a.tid < |s.threads|
    ensures var pc, pc' := s.threads[a.tid], Step(c, s, a).threads[a.tid];
            && (!pc.Idle? && (TakesPush(pc') || DoesPush(pc')) ==> TakesPush(pc) || DoesPush(pc))
            && (!pc.Idle? && (TakesPop(pc') || DoesPop(pc')) ==> TakesPop(pc) || DoesPop(pc))
            && (pc.Idle? && !pc'.Idle? ==> a.event.Call?)
  {
  }

  lemma RolesStep<V>(c: Config, roles: seq<Role>, s: State<V>, a: Action<V>)
    requires Shape(c, s) && RolesKept(roles, s) && a.tid < |s.threads| && InRole(roles, a)
    ensures RolesKept(roles, Step(c, s, a))
  {
    SameKind(c, s, a);
  }

  // ---------------------------------------------------------------- nobody pops, or nobody pushes

  lemma {:induction false} NobodyPops<V>(c: Config, roles: seq<Role>, s: State<V>, run: seq<Action<V>>)
    requires Shape(c, s) && RolesKept(roles, s) && NonePop(roles) && s.trace.taken == []
    requires Schedule(|s.threads|, run) && Respects(roles, run)
    ensures Run(c, s, run).trace.taken == []
    decreases |run|
  {
    if run != [] {
      var k := run[0].tid;
      assert InRole(roles, run[0]) && !roles[k].pops;
      RolesStep(c, roles, s, run[0]);
      NobodyPops(c, roles, Step(c, s, run[0]), run[1..]);
    }
  }

  ghost predicate Untouched<V>(c: Config, s: State<V>)
    requires Shape(c, s)
  {
    && s.trace.taken == []
    && (forall i | 0 <= i < c.Size() :: s.states[i] == EMPTY)
    && (forall k | 0 <= k < |s.threads| :: !s.threads[k].PopRead? && !s.threads[k].PopRelease?)
  }

  lemma {:induction false} NobodyPushes<V>(c: Config, roles: seq<Role>, s: State<V>, run: seq<Action<V>>)
    requires Shape(c, s) && RolesKept(roles, s) && NonePush(roles) && Untouched(c, s)
    requires Schedule(|s.threads|, run) && Respects(roles, run)
    ensures Run(c, s, run).trace.taken == []
    decreases |run|
  {
    if run != [] {
      var k := run[0].tid;
      assert InRole(roles, run[0]) && !roles[k].pushes;
      RolesStep(c, roles, s, run[0]);
      UntouchedStep(c, s, run[0]);
      NobodyPushes(c, roles, Step(c, s, run[0]), run[1..]);
    }
  }

  lemma UntouchedStep<V>(c: Config, s: State<V>, a: Action<V>)
    requires Shape(c, s) && Untouched(c, s) && a.tid < |s.threads|
    requires !TakesPush(s.threads[a.tid]) && !DoesPush(s.threads[a.tid])
    ensures Untouched(c, Step(c, s, a))
  {
  }

  // ---------------------------------------------------------------- one producer, one slot

  ghost function Pending<V>(pc: Pc<V>): seq<V> { if DoesPush(pc) then [pc.value] else [] }

  /** Everything let in is: what has been returned, what the slot or its reader holds, what the producer is
      about to store. */
  ghost predicate OneSlotLine<V>(c: Config, s: State<V>, p: nat)
    requires Shape(c, s) && p < |s.threads|
  {
    var i, last := Slot(c, 0), Pending(s.threads[p]);
    && (s.states[i] == EMPTY || s.states[i] == STORING ==> s.trace.issued == s.trace.taken + last)
    && (s.states[i] == STORED ==> s.trace.issued == s.trace.taken + [s.elements[i]] + last)
    && (forall k | 0 <= k < |s.threads| ::
          && (s.threads[k].PopRead? ==> s.trace.issued == s.trace.taken + [s.elements[i]] + last)
          && (s.threads[k].PopRelease? ==> s.trace.issued == s.trace.taken + [s.threads[k].value] + last))
  }

  ghost predicate OneSlotInv<V(!new)>(c: Config, roles: seq<Role>, s: State<V>, p: nat) {
    && LedgerInv(c, s) && Written(c, s) && RolesKept(roles, s) && c.Size() == 1
    && p < |roles| && roles[p].pushes && OnePushes(roles) && OneSlotLine(c, s, p)
  }

  lemma OnlySlot(c: Config, t: nat)
    requires WfConfig(c) && c.Size() == 1
    ensures Slot(c, t) == Slot(c, 0) == 0
  {
  }

  lemma OneSlotTakesPush<V(!new)>(c: Config, roles: seq<Role>, s: State<V>, p: nat, e: Event<V>)
    requires OneSlotInv(c, roles, s, p) && TakesPush(s.threads[p])
    ensures OneSlotLine(c, StepTryPush(c, s, p, e), p)
  {
    var s' := StepTryPush(c, s, p, e);
    assert s'.states == s.states && s'.elements == s.elements && s'.trace.taken == s.trace.taken;
    assert s'.trace.issued == s.trace.issued + Pending(s'.threads[p]);
  }

  /** While one thread owns the slot no other reads it. */
  lemma OnlyReader<V>(c: Config, s: State<V>, k: nat)
    requires LedgerInv(c, s) && c.Size() == 1 && k < |s.threads| && Owns(c, s.threads[k], 0)
    ensures forall j | 0 <= j < |s.threads| && j != k :: !s.threads[j].PopRead? && !s.threads[j].PopRelease?
  {
    forall j | 0 <= j < |s.threads| && j != k ensures !s.threads[j].PopRead? && !s.threads[j].PopRelease? {
      OwnersDiffer(c, s, k, j, 0);
      if s.threads[j].PopRead? || s.threads[j].PopRelease? { OnlySlot(c, s.threads[j].tail); }
    }
  }

  lemma NobodyReads<V>(c: Config, s: State<V>)
    requires LedgerInv(c, s) && c.Size() == 1 && s.states[0] != LOADING
    ensures forall j | 0 <= j < |s.threads| :: !s.threads[j].PopRead? && !s.threads[j].PopRelease?
  {
    forall j | 0 <= j < |s.threads| ensures !s.threads[j].PopRead? && !s.threads[j].PopRelease? {
      OwnerSees(c, s, j, 0);
      if s.threads[j].PopRead? || s.threads[j].PopRelease? { OnlySlot(c, s.threads[j].tail); }
    }
  }

  lemma OneSlotDoesPush<V(!new)>(c: Config, roles: seq<Role>, s: State<V>, p: nat, e: Event<V>)
    requires OneSlotInv(c, roles, s, p) && DoesPush(s.threads[p])
    ensures OneSlotLine(c, StepDoPush(c, s, p, e), p)
  {
    OnlySlot(c, s.threads[p].head);
    OwnerSees(c, s, p, 0);
    if s.states[0] != LOADING { NobodyReads(c, s); }
  }

  lemma OneSlotDoesPop<V(!new)>(c: Config, roles: seq<Role>, s: State<V>, p: nat, k: nat, e: Event<V>)
    requires OneSlotInv(c, roles, s, p) && k < |s.threads| && DoesPop(s.threads[k])
    ensures OneSlotLine(c, StepDoPop(c, s, k, e), p)
  {
    OnlySlot(c, s.threads[k].tail);
    OwnerSees(c, s, k, 0);
    if s.threads[k].PopSlot? {
      if s.states[0] != LOADING { NobodyReads(c, s); }
    } else {
      OnlyReader(c, s, k);
      var last := Pending(s.threads[p]);
      if s.threads[k].PopRelease? {
        assert s.trace.taken + [s.threads[k].value] + last == (s.trace.taken + [s.threads[k].value]) + last;
      }
    }
  }

  lemma OneSlotLineStep<V(!new)>(c: Config, roles: seq<Role>, s: State<V>, p: nat, a: Action<V>)
    requires OneSlotInv(c, roles, s, p) && a.tid < |s.threads| && InRole(roles, a)
    ensures OneSlotLine(c, Step(c, s, a), p)
  {
    var pc := s.threads[a.tid];
    if !a.event.Call? {
      if TakesPush(pc) || DoesPush(pc) {
        assert roles[a.tid].pushes && a.tid == p;
        if TakesPush(pc) { OneSlotTakesPush(c, roles, s, p, a.event); } else { OneSlotDoesPush(c, roles, s, p, a.event); }
      } else if DoesPop(pc) {
        OneSlotDoesPop(c, roles, s, p, a.tid, a.event);
      }
    }
  }

  lemma OneSlotStep<V(!new)>(c: Config, roles: seq<Role>, s: State<V>, p: nat, a: Action<V>)
    requires OneSlotInv(c, roles, s, p) && a.tid < |s.threads| && InRole(roles, a)
    ensures OneSlotInv(c, roles, Step(c, s, a), p)
  {
    LedgerStep(c, s, a);
    RolesStep(c, roles, s, a);
    WrittenStep(c, s, a, s.elements[0]);
    OneSlotLineStep(c, roles, s, p, a);
  }

  lemma {:induction false} OneSlotRun<V(!new)>(c: Config, roles: seq<Role>, s: State<V>, p: nat, run: seq<Action<V>>)
    requires OneSlotInv(c, roles, s, p) && Schedule(|s.threads|, run) && Respects(roles, run)
    ensures OneSlotInv(c, roles, Run(c, s, run), p)
    decreases |run|
  {
    if run != [] {
      assert InRole(roles, run[0]);
      OneSlotStep(c, roles, s, p, run[0]);
      OneSlotRun(c, roles, Step(c, s, run[0]), p, run[1..]);
    }
  }

  /** One producer and one slot: in order, however many consumers there are. */
  lemma OneSlotIsInOrder<V(!new)>(c: Config, roles: seq<Role>, s: State<V>, p: nat, run: seq<Action<V>>)
    requires Ideal(c) && Initial(c, s) && c.Size() == 1 && |roles| == |s.threads|
    requires p < |roles| && roles[p].pushes && OnePushes(roles)
    requires Schedule(|s.threads|, run) && Respects(roles, run)
    ensures InOrder(Run(c, s, run))
  {
    LedgerInit(c, s);
    OneSlotRun(c, roles, s, p, run);
    var r := Run(c, s, run);
    assert SlotBalances(c, r, Slot(c, 0));
    if r.states[Slot(c, 0)] == LOADING { var k := CountWitness(c, r.threads, Loads, Slot(c, 0)); }
  }

  // ---------------------------------------------------------------- one producer, one consumer

  lemma OnePerSideIsInOrder<V>(c: Config, roles: seq<Role>, s: State<V>, p: nat, q: nat, run: seq<Action<V>>)
    requires Initial(c, s) && |roles| == |s.threads| && p < |roles| && q < |roles|
    requires roles[p].pushes && roles[q].pops && OnePushes(roles) && OnePops(roles)
    requires Schedule(|s.threads|, run) && Respects(roles, run)
    ensures InOrder(Run(c, s, run))
  {
    forall k | 0 <= k < |run| ensures Spsc.RoleRespected(p, q, run[k]) { assert InRole(roles, run[k]); }
    Spsc.PoppedIsPrefixOfPushed(c, s, p, q, run);
  }

  // ---------------------------------------------------------------- the exact condition

  lemma KeptOrderIsInOrder<V(!new)>(c: Config, roles: seq<Role>, s: State<V>, run: seq<Action<V>>)
    requires Ideal(c) && Initial(c, s) && |roles| == |s.threads| && KeepsOrder(c, roles)
    requires Schedule(|s.threads|, run) && Respects(roles, run)
    ensures InOrder(Run(c, s, run))
  {
    if NonePop(roles) {
      NobodyPops(c, roles, s, run);
    } else if NonePush(roles) {
      NobodyPushes(c, roles, s, run);
    } else {
      var p :| 0 <= p < |roles| && roles[p].pushes;
      var q :| 0 <= q < |roles| && roles[q].pops;
      if OnePops(roles) {
        OnePerSideIsInOrder(c, roles, s, p, q, run);
      } else {
        OneSlotIsInOrder(c, roles, s, p, run);
      }
    }
  }

  ghost predicate Fitting<V>(roles: seq<Role>, run: seq<Action<V>>) { Respects(roles, run) && TryOnly(run) }

  lemma FittingAppend<V>(roles: seq<Role>, a: seq<Action<V>>, b: seq<Action<V>>)
    requires Fitting(roles, a) && Fitting(roles, b)
    ensures Fitting(roles, a + b)
  {
  }

  lemma {:induction false} LapRespects<V>(roles: seq<Role>, slow: nat, fast: nat, v: V, w: V, n: nat)
    requires slow < |roles| && fast < |roles| && roles[slow].pushes && roles[fast].pushes
    ensures Fitting(roles, Lap(slow, fast, v, w, n))
  {
    if n > 0 {
      LapRespects(roles, slow, fast, v, w, n - 1);
      FittingAppend(roles, Lap(slow, fast, v, w, n - 1), FullPush(fast, w));
    }
  }

  lemma OvertakeRespects<V>(c: Config, roles: seq<Role>, slow: nat, fast: nat, reader: nat, v: V, w: V)
    requires c.Size() > 0 && slow < |roles| && fast < |roles| && reader < |roles|
    requires roles[slow].pushes && roles[fast].pushes && roles[reader].pops
    ensures Fitting(roles, Overtake(c, slow, fast, reader, v, w))
  {
    LapRespects(roles, slow, fast, v, w, c.Size() - 1);
  }

  lemma RespectsAppend<V>(roles: seq<Role>, a: seq<Action<V>>, b: seq<Action<V>>)
    requires Respects(roles, a) && Respects(roles, b)
    ensures Respects(roles, a + b)
  {
  }

  lemma OvertakeAndReadRespects<V>(c: Config, roles: seq<Role>, slow: nat, fast: nat, v: V, w: V)
    requires c.Size() > 0 && slow < |roles| && fast < |roles|
    requires roles[slow].pushes && roles[fast].pushes && roles[fast].pops
    ensures Respects(roles, OvertakeAndRead(c, slow, fast, v, w))
  {
    LapRespects(roles, slow, fast, v, w, c.Size() - 1);
    RespectsAppend(roles, Lap(slow, fast, v, w, c.Size() - 1), BlockingPush(fast, w));
  }

  lemma OutOfOrderRespects<V>(roles: seq<Role>, producer: nat, slow: nat, fast: nat, v: V, w: V)
    requires producer < |roles| && slow < |roles| && fast < |roles|
    requires roles[producer].pushes && roles[slow].pops && roles[fast].pops
    ensures Fitting(roles, OutOfOrder(producer, slow, fast, v, w))
  {
    FittingAppend(roles, FullPush(producer, v), FullPush(producer, w));
    FittingAppend(roles, TwoPushes(producer, v, w), Race(slow, fast, v));
  }

  /** A run that is out of order, whenever the condition fails; one of try_push and try_pop if no thread does
      both. */
  lemma OutOfOrderRun<V>(c: Config, roles: seq<Role>, s: State<V>, v: V, w: V) returns (run: seq<Action<V>>)
    requires Ideal(c) && Initial(c, s) && |roles| == |s.threads| && !KeepsOrder(c, roles) && v != w
    ensures Schedule(|s.threads|, run) && Respects(roles, run) && !InOrder(Run(c, s, run))
    ensures OneSided(roles) ==> TryOnly(run)
  {
    var p :| 0 <= p < |roles| && roles[p].pushes;
    var q :| 0 <= q < |roles| && roles[q].pops;
    if !OnePushes(roles) {
      var j, k :| 0 <= j < k < |roles| && roles[j].pushes && roles[k].pushes;
      if q != j && q != k {
        run := ProducersOvertake(c, roles, s, j, k, q, v, w);
      } else {
        var slow := if q == j then k else j;
        run := OvertakeAndRead(c, slow, q, v, w);
        ProducerOvertakesAndReads(c, s, slow, q, v, w);
        OvertakeAndReadRespects(c, roles, slow, q, v, w);
      }
    } else {
      var j, k :| 0 <= j < k < |roles| && roles[j].pops && roles[k].pops;
      run := ConsumersReorder(c, roles, s, p, j, k, v, w);
    }
  }

  lemma ProducersOvertake<V>(c: Config, roles: seq<Role>, s: State<V>, slow: nat, fast: nat, reader: nat, v: V, w: V)
    returns (run: seq<Action<V>>)
    requires Ideal(c) && Initial(c, s) && |roles| == |s.threads| && ThreeThreads(s, slow, fast, reader) && v != w
    requires roles[slow].pushes && roles[fast].pushes && roles[reader].pops
    ensures Schedule(|s.threads|, run) && Fitting(roles, run) && !InOrder(Run(c, s, run))
  {
    run := Overtake(c, slow, fast, reader, v, w);
    TwoProducersOvertake(c, s, slow, fast, reader, v, w);
    OvertakeRespects(c, roles, slow, fast, reader, v, w);
  }

  lemma ConsumersReorder<V>(c: Config, roles: seq<Role>, s: State<V>, producer: nat, slow: nat, fast: nat, v: V, w: V)
    returns (run: seq<Action<V>>)
    requires Ideal(c) && Initial(c, s) && |roles| == |s.threads| && v != w && c.Size() >= 2
    requires producer < |roles| && slow < |roles| && fast < |roles| && slow != fast
    requires roles[producer].pushes && roles[slow].pops && roles[fast].pops
    ensures Schedule(|s.threads|, run) && Fitting(roles, run) && !InOrder(Run(c, s, run))
  {
    run := OutOfOrder(producer, slow, fast, v, w);
    TwoConsumersReorder(c, s, producer, slow, fast, v, w);
    OutOfOrderRespects(roles, producer, slow, fast, v, w);
  }

  /** For any number of threads, each free to push, pop, both or neither, and any two values: every run returns
      values in the order of their tickets exactly when the condition holds. When no thread does both, leaving
      the blocking operations out does not change that. */
  lemma InOrderIff<V(!new)>(c: Config, roles: seq<Role>, s: State<V>, v: V, w: V)
    requires Ideal(c) && Initial(c, s) && |roles| == |s.threads| && v != w
    ensures (forall run | Schedule(|s.threads|, run) && Respects(roles, run) :: InOrder(Run(c, s, run)))
            <==> KeepsOrder(c, roles)
    ensures OneSided(roles) ==>
              ((forall run | Schedule(|s.threads|, run) && Respects(roles, run) && TryOnly(run) :: InOrder(Run(c, s, run)))
               <==> KeepsOrder(c, roles))
  {
    if KeepsOrder(c, roles) {
      forall run | Schedule(|s.threads|, run) && Respects(roles, run) ensures InOrder(Run(c, s, run)) {
        KeptOrderIsInOrder(c, roles, s, run);
      }
    } else {
      var run := OutOfOrderRun(c, roles, s, v, w);
    }
  }
}
