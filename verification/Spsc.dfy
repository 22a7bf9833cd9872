/** One producer and one consumer: the ring is a first-in first-out queue, with the dedicated
    single-producer/single-consumer branches and with the compare-and-swap branches, with unbounded counters and
    with 32-bit ones, for every size. Positions in the queue are counted by the values let in and returned, so the
    wrapping of the counters plays no part in the argument. */
module Spsc {
  import opened Bits
  import opened AtomicQueue
  import opened Ledger

  /** Only `p` pushes and only `q` pops; they may be the same thread. */
  ghost predicate RoleRespected<V>(p: nat, q: nat, a: Action<V>) {
    a.event.Call? ==> if a.event.op.TryPush? || a.event.op.Push? then a.tid == p else a.tid == q
  }

  ghost predicate OneEachSide<V>(p: nat, q: nat, run: seq<Action<V>>) {
    forall k | 0 <= k < |run| :: RoleRespected(p, q, run[k])
  }

  predicate Writing<V>(pc: Pc<V>) { pc.PushWrite? || pc.PushPublish? }

  predicate Reading<V>(pc: Pc<V>) { pc.PopRead? || pc.PopRelease? }

  // ---------------------------------------------------------------- positions

  /** How the `n`-th ticket is counted. */
  ghost function Rep(c: Config, n: nat): nat { if c.wrap then n % WORD else n }

  lemma RepNext(c: Config, n: nat)
    ensures Next(c, Rep(c, n)) == Rep(c, n + 1)
  {
  }

  ghost function SlotOf(c: Config, n: nat): (i: nat)
    requires WfConfig(c)
    ensures i < c.Size()
  {
    Slot(c, Rep(c, n))
  }

  /** Tickets whose push has published its element, tickets let out, tickets whose pop has returned. */
  ghost function Produced<V>(s: State<V>, p: nat): int
    requires p < |s.threads|
  {
    |s.trace.issued| - One(DoesPush(s.threads[p]))
  }

  ghost function LetOut<V>(s: State<V>, q: nat): nat
    requires q < |s.threads|
  {
    |s.trace.taken| + One(DoesPop(s.threads[q]))
  }

  ghost function Consumed<V>(s: State<V>): nat { |s.trace.taken| }

  // ---------------------------------------------------------------- the invariant

  ghost predicate Counters<V>(c: Config, s: State<V>, p: nat, q: nat) {
    && p < |s.threads| && q < |s.threads|
    && (forall k | 0 <= k < |s.threads| && k != p && k != q :: s.threads[k].Idle?)
    && (p != q ==> !TakesPop(s.threads[p]) && !DoesPop(s.threads[p]) && !TakesPush(s.threads[q]) && !DoesPush(s.threads[q]))
    && s.head == Rep(c, |s.trace.issued|) && s.tail == Rep(c, LetOut(s, q))
    && Consumed(s) <= Produced(s, p)
  }

  /** What the two threads carry. */
  ghost predicate Threads<V>(c: Config, s: State<V>, p: nat, q: nat)
    requires Counters(c, s, p, q)
  {
    var pp, qq, issued := s.threads[p], s.threads[q], s.trace.issued;
    && (pp.PushCheck? || pp.PushAdvance? ==> pp.head == s.head)
    && (qq.PopCheck? || qq.PopAdvance? ==> qq.tail == s.tail)
    && (DoesPush(pp) ==> issued != [] && pp.head == Rep(c, |issued| - 1) && pp.value == issued[|issued| - 1])
    && (DoesPop(qq) ==> qq.tail == Rep(c, Consumed(s)))
    && (Reading(qq) ==> Consumed(s) < Produced(s, p))
    && (qq.PopRelease? ==> qq.value == issued[Consumed(s)])
  }

  ghost predicate Between<V>(s: State<V>, p: nat, t: nat)
    requires p < |s.threads|
  {
    Consumed(s) <= t < Produced(s, p)
  }

  /** The elements published and not returned yet are in their slots, */
  ghost predicate InPlace<V>(c: Config, s: State<V>, p: nat, q: nat)
    requires Shape(c, s) && Counters(c, s, p, q)
  {
    forall t: nat | Between(s, p, t) ::
      && s.states[SlotOf(c, t)] == (if t == Consumed(s) && Reading(s.threads[q]) && !c.spsc then LOADING else STORED)
      && (s.elements[SlotOf(c, t)] == s.trace.issued[t] || (t == Consumed(s) && s.threads[q].PopRelease?))
  }

  /** ... no two of them in one, */
  ghost predicate Apart<V>(c: Config, s: State<V>, p: nat)
    requires Shape(c, s) && p < |s.threads|
  {
    forall t: nat, u: nat | Between(s, p, t) && Between(s, p, u) && t != u :: SlotOf(c, t) != SlotOf(c, u)
  }

  /** ... nothing else is STORED, */
  ghost predicate NothingElse<V>(c: Config, s: State<V>, p: nat)
    requires Shape(c, s) && p < |s.threads|
  {
    forall i: nat | i < c.Size() && s.states[i] == STORED :: exists t: nat :: Between(s, p, t) && SlotOf(c, t) == i
  }

  /** ... and the slot the producer is writing to is none of theirs. */
  ghost predicate Ahead<V>(c: Config, s: State<V>, p: nat, q: nat)
    requires Shape(c, s) && Counters(c, s, p, q)
  {
    && (Writing(s.threads[p]) ==> forall t: nat | Between(s, p, t) :: SlotOf(c, t) != SlotOf(c, Produced(s, p)))
    && (s.threads[p].PushPublish? ==> s.elements[SlotOf(c, Produced(s, p))] == s.threads[p].value)
  }

  ghost predicate Slots<V>(c: Config, s: State<V>, p: nat, q: nat)
    requires Shape(c, s) && Counters(c, s, p, q)
  {
    InPlace(c, s, p, q) && Apart(c, s, p) && NothingElse(c, s, p) && Ahead(c, s, p, q)
  }

  ghost predicate FifoInv<V>(c: Config, s: State<V>, p: nat, q: nat) {
    && Shape(c, s) && Counters(c, s, p, q) && Threads(c, s, p, q) && Slots(c, s, p, q)
    && s.trace.taken <= s.trace.issued
  }

  lemma FifoInit<V>(c: Config, s: State<V>, p: nat, q: nat)
    requires Initial(c, s) && p < |s.threads| && q < |s.threads|
    ensures FifoInv(c, s, p, q)
  {
  }

  // ---------------------------------------------------------------- up to the tickets

  /** A thread goes to another place without touching the ring or its slots. */
  ghost predicate OnlyMoves<V>(s: State<V>, s': State<V>, tid: nat) {
    && tid < |s.threads|
    && |s'.threads| == |s.threads| && s'.threads == s.threads[tid := s'.threads[tid]]
    && s'.head == s.head && s'.tail == s.tail && s'.states == s.states && s'.elements == s.elements
    && s'.trace.issued == s.trace.issued && s'.trace.taken == s.trace.taken
  }

  /** Before its ticket, with an up-to-date counter if any. */
  ghost predicate Waiting<V>(s: State<V>, p: nat, q: nat, tid: nat, pc: Pc<V>) {
    && !DoesPush(pc) && !DoesPop(pc)
    && (TakesPush(pc) ==> tid == p) && (TakesPop(pc) ==> tid == q)
    && (pc.PushCheck? || pc.PushAdvance? ==> pc.head == s.head)
    && (pc.PopCheck? || pc.PopAdvance? ==> pc.tail == s.tail)
  }

  /** Nothing the slots depend on has changed, except that values may have been let in. */
  lemma SameSlots<V>(c: Config, s: State<V>, s': State<V>, p: nat, q: nat)
    requires Shape(c, s) && Shape(c, s') && Counters(c, s, p, q) && Counters(c, s', p, q) && Slots(c, s, p, q)
    requires s'.states == s.states && s'.elements == s.elements
    requires s'.trace.taken == s.trace.taken && s.trace.issued <= s'.trace.issued && Produced(s', p) == Produced(s, p)
    requires Reading(s'.threads[q]) == Reading(s.threads[q]) && s'.threads[q].PopRelease? == s.threads[q].PopRelease?
    requires Writing(s'.threads[p]) == Writing(s.threads[p])
    requires s'.threads[p].PushPublish? ==> s'.threads[p] == s.threads[p]
    ensures Slots(c, s', p, q)
  {
    assert forall t: nat :: Between(s', p, t) == Between(s, p, t);
  }

  lemma MoveThreads<V>(c: Config, s: State<V>, s': State<V>, p: nat, q: nat, tid: nat)
    requires Counters(c, s, p, q) && Threads(c, s, p, q) && OnlyMoves(s, s', tid) && (tid == p || tid == q)
    requires !DoesPush(s.threads[tid]) && !DoesPop(s.threads[tid]) && Waiting(s, p, q, tid, s'.threads[tid])
    ensures Counters(c, s', p, q) && Threads(c, s', p, q) && Produced(s', p) == Produced(s, p)
  {
  }

  lemma MoveKeepsFifo<V>(c: Config, s: State<V>, s': State<V>, p: nat, q: nat, tid: nat)
    requires FifoInv(c, s, p, q) && OnlyMoves(s, s', tid) && (tid == p || tid == q)
    requires !DoesPush(s.threads[tid]) && !DoesPop(s.threads[tid]) && Waiting(s, p, q, tid, s'.threads[tid])
    ensures FifoInv(c, s', p, q)
  {
    MoveThreads(c, s, s', p, q, tid);
    SameSlots(c, s, s', p, q);
  }

  lemma IssuePushThreads<V>(c: Config, s: State<V>, p: nat, q: nat, v: V)
    requires FifoInv(c, s, p, q) && TakesPush(s.threads[p])
    ensures var s' := IssuePush(c, s, p, v, s.head);
            Counters(c, s', p, q) && Threads(c, s', p, q) && Produced(s', p) == Produced(s, p)
  {
    RepNext(c, |s.trace.issued|);
  }

  lemma IssuePushKeepsFifo<V>(c: Config, s: State<V>, p: nat, q: nat, v: V)
    requires FifoInv(c, s, p, q) && TakesPush(s.threads[p])
    ensures FifoInv(c, IssuePush(c, s, p, v, s.head), p, q)
  {
    IssuePushThreads(c, s, p, q, v);
    SameSlots(c, s, IssuePush(c, s, p, v, s.head), p, q);
  }

  lemma IssuePopKeepsFifo<V>(c: Config, s: State<V>, p: nat, q: nat)
    requires FifoInv(c, s, p, q) && TakesPop(s.threads[q])
    ensures FifoInv(c, IssuePop(c, s, q, s.tail), p, q)
  {
    RepNext(c, Consumed(s));
    SameSlots(c, s, IssuePop(c, s, q, s.tail), p, q);
  }

  lemma CallKeepsFifo<V>(c: Config, s: State<V>, p: nat, q: nat, a: Action<V>)
    requires FifoInv(c, s, p, q) && a.tid < |s.threads| && a.event.Call? && RoleRespected(p, q, a)
    ensures FifoInv(c, StepCall(s, a.tid, a.event.op), p, q)
  {
    if s.threads[a.tid].Idle? { MoveKeepsFifo(c, s, StepCall(s, a.tid, a.event.op), p, q, a.tid); }
  }

  lemma TryPushKeepsFifo<V>(c: Config, s: State<V>, p: nat, q: nat, e: Event<V>)
    requires FifoInv(c, s, p, q) && TakesPush(s.threads[p])
    ensures FifoInv(c, StepTryPush(c, s, p, e), p, q)
  {
    var s', pp := StepTryPush(c, s, p, e), s.threads[p];
    if s'.threads[p].PushSlot? {
      assert s' == IssuePush(c, s, p, pp.value, s.head);
      IssuePushKeepsFifo(c, s, p, q, pp.value);
    } else {
      assert OnlyMoves(s, s', p);
      MoveKeepsFifo(c, s, s', p, q, p);
    }
  }

  lemma TryPopKeepsFifo<V>(c: Config, s: State<V>, p: nat, q: nat, e: Event<V>)
    requires FifoInv(c, s, p, q) && TakesPop(s.threads[q])
    ensures FifoInv(c, StepTryPop(c, s, q, e), p, q)
  {
    var s' := StepTryPop(c, s, q, e);
    if s'.threads[q].PopSlot? {
      assert s' == IssuePop(c, s, q, s.tail);
      IssuePopKeepsFifo(c, s, p, q);
    } else {
      assert OnlyMoves(s, s', q);
      MoveKeepsFifo(c, s, s', p, q, q);
    }
  }

  // ---------------------------------------------------------------- at the slots

  /** Only thread `tid` and the slot at `i` are touched. */
  ghost predicate Touches<V>(s: State<V>, s': State<V>, tid: nat, i: nat)
    requires |s.states| == |s.elements|
  {
    && tid < |s.threads| && |s'.threads| == |s.threads| && s'.threads == s.threads[tid := s'.threads[tid]]
    && s'.head == s.head && s'.tail == s.tail && s'.trace.issued == s.trace.issued
    && i < |s.states| && |s'.states| == |s.states| && |s'.elements| == |s.elements|
    && s'.states == s.states[i := s'.states[i]] && s'.elements == s.elements[i := s'.elements[i]]
  }

  lemma PushThreads<V>(c: Config, s: State<V>, p: nat, q: nat, e: Event<V>)
    requires Shape(c, s) && Counters(c, s, p, q) && Threads(c, s, p, q) && DoesPush(s.threads[p])
    ensures var s' := StepDoPush(c, s, p, e); Shape(c, s') && Counters(c, s', p, q) && Threads(c, s', p, q)
  {
  }

  lemma PopThreads<V>(c: Config, s: State<V>, p: nat, q: nat, e: Event<V>)
    requires Shape(c, s) && Counters(c, s, p, q) && Threads(c, s, p, q) && DoesPop(s.threads[q])
    requires s.threads[q].PopSlot? && s.states[SlotOf(c, Consumed(s))] == STORED ==> Between(s, p, Consumed(s))
    requires s.threads[q].PopRead? ==> s.elements[SlotOf(c, Consumed(s))] == s.trace.issued[Consumed(s)]
    ensures var s' := StepDoPop(c, s, q, e); Shape(c, s') && Counters(c, s', p, q) && Threads(c, s', p, q)
  {
  }

  lemma ClaimSlots<V>(c: Config, s: State<V>, s': State<V>, p: nat, q: nat)
    requires Shape(c, s) && Shape(c, s') && Counters(c, s, p, q) && Counters(c, s', p, q) && Slots(c, s, p, q)
    requires Touches(s, s', p, SlotOf(c, Produced(s, p))) && s'.trace == s.trace && s'.elements == s.elements
    requires s.threads[p].PushSlot? && s'.threads[p].PushWrite? && s.states[SlotOf(c, Produced(s, p))] == EMPTY
    requires s'.states[SlotOf(c, Produced(s, p))] == if c.spsc then EMPTY else STORING
    ensures Slots(c, s', p, q)
  {
    assert forall t: nat :: Between(s', p, t) == Between(s, p, t);
  }

  /** The producer's slot is EMPTY, so no element waiting to be read is in it. */
  lemma ClaimKeepsFifo<V>(c: Config, s: State<V>, p: nat, q: nat, e: Event<V>)
    requires FifoInv(c, s, p, q) && s.threads[p].PushSlot?
    ensures FifoInv(c, StepDoPush(c, s, p, e), p, q)
  {
    PushThreads(c, s, p, q, e);
    var s' := StepDoPush(c, s, p, e);
    if s'.threads[p].PushWrite? {
      ClaimSlots(c, s, s', p, q);
    } else {
      assert s' == s;
    }
  }

  lemma WriteSlots<V>(c: Config, s: State<V>, s': State<V>, p: nat, q: nat)
    requires Shape(c, s) && Shape(c, s') && Counters(c, s, p, q) && Counters(c, s', p, q) && Slots(c, s, p, q)
    requires Touches(s, s', p, SlotOf(c, Produced(s, p))) && s'.trace == s.trace && s'.states == s.states
    requires s.threads[p].PushWrite? && s'.threads[p].PushPublish?
    requires s'.elements[SlotOf(c, Produced(s, p))] == s'.threads[p].value
    ensures Slots(c, s', p, q)
  {
    assert forall t: nat :: Between(s', p, t) == Between(s, p, t);
  }

  lemma WriteKeepsFifo<V>(c: Config, s: State<V>, p: nat, q: nat, e: Event<V>)
    requires FifoInv(c, s, p, q) && s.threads[p].PushWrite?
    ensures FifoInv(c, StepDoPush(c, s, p, e), p, q)
  {
    PushThreads(c, s, p, q, e);
    var s' := StepDoPush(c, s, p, e);
    if e.Go? { WriteSlots(c, s, s', p, q); } else { assert s' == s; }
  }

  /** The producer publishes the element of its ticket. */
  ghost predicate Publishes<V>(c: Config, s: State<V>, s': State<V>, p: nat, q: nat)
    requires Shape(c, s) && Shape(c, s') && Counters(c, s, p, q) && Counters(c, s', p, q)
  {
    && s'.trace == s.trace && s'.elements == s.elements
    && s.threads[p].PushPublish? && s'.threads[p].Idle? && s.threads[p].value == s.trace.issued[Produced(s, p)]
    && s'.states == s.states[SlotOf(c, Produced(s, p)) := STORED]
    && Reading(s'.threads[q]) == Reading(s.threads[q]) && s'.threads[q].PopRelease? == s.threads[q].PopRelease?
    && (Reading(s.threads[q]) ==> Consumed(s) < Produced(s, p))
  }

  lemma OneMoreBetween<V>(c: Config, s: State<V>, s': State<V>, p: nat, q: nat)
    requires Shape(c, s) && Shape(c, s') && Counters(c, s, p, q) && Counters(c, s', p, q) && Publishes(c, s, s', p, q)
    ensures forall t: nat :: Between(s', p, t) <==> Between(s, p, t) || t == Produced(s, p)
  {
  }

  lemma PublishInPlace<V>(c: Config, s: State<V>, s': State<V>, p: nat, q: nat)
    requires Shape(c, s) && Shape(c, s') && Counters(c, s, p, q) && Counters(c, s', p, q) && Publishes(c, s, s', p, q)
    requires InPlace(c, s, p, q) && Ahead(c, s, p, q)
    ensures InPlace(c, s', p, q) && Ahead(c, s', p, q)
  {
    OneMoreBetween(c, s, s', p, q);
  }

  lemma PublishApart<V>(c: Config, s: State<V>, s': State<V>, p: nat, q: nat)
    requires Shape(c, s) && Shape(c, s') && Counters(c, s, p, q) && Counters(c, s', p, q) && Publishes(c, s, s', p, q)
    requires Apart(c, s, p) && Ahead(c, s, p, q)
    ensures Apart(c, s', p)
  {
    OneMoreBetween(c, s, s', p, q);
  }

  lemma PublishNothingElse<V>(c: Config, s: State<V>, s': State<V>, p: nat, q: nat)
    requires Shape(c, s) && Shape(c, s') && Counters(c, s, p, q) && Counters(c, s', p, q) && Publishes(c, s, s', p, q)
    requires NothingElse(c, s, p)
    ensures NothingElse(c, s', p)
  {
    OneMoreBetween(c, s, s', p, q);
    var h := Produced(s, p);
    forall i: nat | i < c.Size() && s'.states[i] == STORED
      ensures exists t: nat :: Between(s', p, t) && SlotOf(c, t) == i
    {
      if i == SlotOf(c, h) {
        assert Between(s', p, h);
      } else {
        var t: nat :| Between(s, p, t) && SlotOf(c, t) == i;
        assert Between(s', p, t);
      }
    }
  }

  lemma PublishKeepsFifo<V>(c: Config, s: State<V>, p: nat, q: nat, e: Event<V>)
    requires FifoInv(c, s, p, q) && s.threads[p].PushPublish?
    ensures FifoInv(c, StepDoPush(c, s, p, e), p, q)
  {
    PushThreads(c, s, p, q, e);
    var s' := StepDoPush(c, s, p, e);
    if e.Go? {
      PublishInPlace(c, s, s', p, q);
      PublishApart(c, s, s', p, q);
      PublishNothingElse(c, s, s', p, q);
    } else {
      assert s' == s;
    }
  }

  /** A STORED slot of the consumer's holds the oldest element. */
  lemma OldestIsThere<V>(c: Config, s: State<V>, p: nat, q: nat)
    requires FifoInv(c, s, p, q) && s.states[SlotOf(c, Consumed(s))] == STORED
    ensures Between(s, p, Consumed(s))
  {
    var t: nat :| Between(s, p, t) && SlotOf(c, t) == SlotOf(c, Consumed(s));
  }

  lemma GrabSlots<V>(c: Config, s: State<V>, s': State<V>, p: nat, q: nat)
    requires Shape(c, s) && Shape(c, s') && Counters(c, s, p, q) && Counters(c, s', p, q) && Slots(c, s, p, q)
    requires Touches(s, s', q, SlotOf(c, Consumed(s))) && s'.trace == s.trace && s'.elements == s.elements
    requires s.threads[q].PopSlot? && s'.threads[q].PopRead? && Between(s, p, Consumed(s))
    requires s'.states[SlotOf(c, Consumed(s))] == if c.spsc then STORED else LOADING
    ensures Slots(c, s', p, q)
  {
    assert forall t: nat :: Between(s', p, t) == Between(s, p, t);
    forall i: nat | i < c.Size() && s'.states[i] == STORED
      ensures exists t: nat :: Between(s', p, t) && SlotOf(c, t) == i
    {
      if i == SlotOf(c, Consumed(s)) {
        assert Between(s', p, Consumed(s));
      } else {
        var t: nat :| Between(s, p, t) && SlotOf(c, t) == i;
        assert Between(s', p, t);
      }
    }
  }

  lemma GrabKeepsFifo<V>(c: Config, s: State<V>, p: nat, q: nat, e: Event<V>)
    requires FifoInv(c, s, p, q) && s.threads[q].PopSlot?
    ensures FifoInv(c, StepDoPop(c, s, q, e), p, q)
  {
    if s.states[SlotOf(c, Consumed(s))] == STORED { OldestIsThere(c, s, p, q); }
    PopThreads(c, s, p, q, e);
    var s' := StepDoPop(c, s, q, e);
    if s'.threads[q].PopRead? {
      GrabSlots(c, s, s', p, q);
    } else {
      assert s' == s;
    }
  }

  lemma ReadSlots<V>(c: Config, s: State<V>, s': State<V>, p: nat, q: nat)
    requires Shape(c, s) && Shape(c, s') && Counters(c, s, p, q) && Counters(c, s', p, q) && Slots(c, s, p, q)
    requires Touches(s, s', q, SlotOf(c, Consumed(s))) && s'.trace == s.trace && s'.states == s.states
    requires s.threads[q].PopRead? && s'.threads[q].PopRelease? && Between(s, p, Consumed(s))
    ensures Slots(c, s', p, q)
  {
    assert forall t: nat :: Between(s', p, t) == Between(s, p, t);
  }

  lemma ReadKeepsFifo<V>(c: Config, s: State<V>, p: nat, q: nat, e: Event<V>)
    requires FifoInv(c, s, p, q) && s.threads[q].PopRead?
    ensures FifoInv(c, StepDoPop(c, s, q, e), p, q)
  {
    assert Between(s, p, Consumed(s));
    PopThreads(c, s, p, q, e);
    var s' := StepDoPop(c, s, q, e);
    if e.Go? { ReadSlots(c, s, s', p, q); } else { assert s' == s; }
  }

  /** The consumer frees the slot of the oldest element. */
  ghost predicate Releases<V>(c: Config, s: State<V>, s': State<V>, p: nat, q: nat)
    requires Shape(c, s) && Shape(c, s') && Counters(c, s, p, q) && Counters(c, s', p, q)
  {
    && s'.trace.issued == s.trace.issued && Consumed(s') == Consumed(s) + 1 && s'.elements == s.elements
    && s.threads[q].PopRelease? && s'.threads[q].Idle? && Between(s, p, Consumed(s))
    && s'.states == s.states[SlotOf(c, Consumed(s)) := EMPTY]
    && (p != q ==> s'.threads[p] == s.threads[p])
  }

  lemma OneLessBetween<V>(c: Config, s: State<V>, s': State<V>, p: nat, q: nat)
    requires Shape(c, s) && Shape(c, s') && Counters(c, s, p, q) && Counters(c, s', p, q) && Releases(c, s, s', p, q)
    ensures Produced(s', p) == Produced(s, p)
    ensures forall t: nat :: Between(s', p, t) <==> Between(s, p, t) && t != Consumed(s)
  {
  }

  lemma ReleaseInPlace<V>(c: Config, s: State<V>, s': State<V>, p: nat, q: nat)
    requires Shape(c, s) && Shape(c, s') && Counters(c, s, p, q) && Counters(c, s', p, q) && Releases(c, s, s', p, q)
    requires InPlace(c, s, p, q) && Apart(c, s, p) && Ahead(c, s, p, q)
    ensures InPlace(c, s', p, q) && Ahead(c, s', p, q) && Apart(c, s', p)
  {
    OneLessBetween(c, s, s', p, q);
  }

  lemma ReleaseNothingElse<V>(c: Config, s: State<V>, s': State<V>, p: nat, q: nat)
    requires Shape(c, s) && Shape(c, s') && Counters(c, s, p, q) && Counters(c, s', p, q) && Releases(c, s, s', p, q)
    requires NothingElse(c, s, p)
    ensures NothingElse(c, s', p)
  {
    OneLessBetween(c, s, s', p, q);
    forall i: nat | i < c.Size() && s'.states[i] == STORED
      ensures exists t: nat :: Between(s', p, t) && SlotOf(c, t) == i
    {
      var t: nat :| Between(s, p, t) && SlotOf(c, t) == i;
      assert Between(s', p, t);
    }
  }

  lemma ReleaseKeepsFifo<V>(c: Config, s: State<V>, p: nat, q: nat, e: Event<V>)
    requires FifoInv(c, s, p, q) && s.threads[q].PopRelease?
    ensures FifoInv(c, StepDoPop(c, s, q, e), p, q)
  {
    assert Between(s, p, Consumed(s));
    PopThreads(c, s, p, q, e);
    var s' := StepDoPop(c, s, q, e);
    if e.Go? {
      ReleaseInPlace(c, s, s', p, q);
      ReleaseNothingElse(c, s, s', p, q);
    } else {
      assert s' == s;
    }
  }

  lemma FifoStep<V>(c: Config, s: State<V>, p: nat, q: nat, a: Action<V>)
    requires FifoInv(c, s, p, q) && a.tid < |s.threads| && RoleRespected(p, q, a)
    ensures FifoInv(c, Step(c, s, a), p, q)
  {
    var pc := s.threads[a.tid];
    if a.event.Call? {
      CallKeepsFifo(c, s, p, q, a);
    } else {
      match pc
      case Idle =>
      case PushSlot(_, _) => ClaimKeepsFifo(c, s, p, q, a.event);
      case PushWrite(_, _) => WriteKeepsFifo(c, s, p, q, a.event);
      case PushPublish(_, _) => PublishKeepsFifo(c, s, p, q, a.event);
      case PopSlot(_) => GrabKeepsFifo(c, s, p, q, a.event);
      case PopRead(_) => ReadKeepsFifo(c, s, p, q, a.event);
      case PopRelease(_, _) => ReleaseKeepsFifo(c, s, p, q, a.event);
      case _ =>
        if TakesPush(pc) { TryPushKeepsFifo(c, s, p, q, a.event); } else { TryPopKeepsFifo(c, s, p, q, a.event); }
    }
  }

  lemma {:induction false} FifoRun<V>(c: Config, s: State<V>, p: nat, q: nat, run: seq<Action<V>>)
    requires FifoInv(c, s, p, q) && Schedule(|s.threads|, run) && OneEachSide(p, q, run)
    ensures FifoInv(c, Run(c, s, run), p, q)
    decreases |run|
  {
    if run != [] {
      assert RoleRespected(p, q, run[0]);
      FifoStep(c, s, p, q, run[0]);
      FifoRun(c, Step(c, s, run[0]), p, q, run[1..]);
    }
  }

  /** In every run with one producer and one consumer -- blocking operations included, in either mode, with
      unbounded or 32-bit counters across any number of wraps, and for every size, whether or not it divides
      2^32 -- the values returned are a prefix, in order, of the values accepted. */
  lemma PoppedIsPrefixOfPushed<V>(c: Config, s: State<V>, p: nat, q: nat, run: seq<Action<V>>)
    requires Initial(c, s) && p < |s.threads| && q < |s.threads|
    requires Schedule(|s.threads|, run) && OneEachSide(p, q, run)
    ensures Run(c, s, run).trace.taken <= Run(c, s, run).trace.issued
  {
    FifoInit(c, s, p, q);
    FifoRun(c, s, p, q, run);
  }

  // ---------------------------------------------------------------- refinement of a bounded sequence

  /** What an observer of the abstract queue sees of one access. */
  datatype Effect<V> = Silent | Enqueue(value: V) | Dequeue(value: V) | SawFull | SawEmpty

  /** A sequence that never holds more than `capacity` values. */
  ghost predicate BoundedQueueStep<V>(q: seq<V>, q': seq<V>, capacity: nat, e: Effect<V>) {
    && |q'| <= capacity
    && match e
       case Silent => q' == q
       case Enqueue(v) => q' == q + [v]
       case Dequeue(v) => q == [v] + q'
       case SawFull => q' == q && |q| == capacity
       case SawEmpty => q' == q && q == []
  }

  /** A size whose distances and capacity an `int` can hold, if the counters wrap. */
  ghost predicate SignedSize(c: Config) { c.wrap ==> c.Size() < WORD / 2 }

  /** The tickets let in and not yet let out; runs of try_push and try_pop keep them within the capacity. */
  ghost predicate TicketsBounded<V>(c: Config, s: State<V>, p: nat, q: nat) {
    && p < |s.threads| && q < |s.threads|
    && LetOut(s, q) <= |s.trace.issued| <= LetOut(s, q) + c.Size()
    && !s.threads[p].PushTake? && !s.threads[q].PopTake?
    && (s.threads[p].PushAdvance? ==> |s.trace.issued| < LetOut(s, q) + c.Size())
    && (s.threads[q].PopAdvance? ==> LetOut(s, q) < |s.trace.issued|)
  }

  ghost predicate Bounded<V>(c: Config, s: State<V>, p: nat, q: nat) {
    FifoInv(c, s, p, q) && TicketsBounded(c, s, p, q)
  }

  ghost function Queue<V>(c: Config, s: State<V>, p: nat, q: nat): seq<V>
    requires Bounded(c, s, p, q)
  {
    s.trace.issued[LetOut(s, q)..]
  }

  /** A push takes effect when its ticket is let in, a pop when its ticket is let out; the two failing answers
      take effect at the load that decides them. */
  ghost function EffectOf<V>(s: State<V>, s': State<V>, tid: nat): Effect<V>
    requires tid < |s.threads| == |s'.threads|
  {
    var pc, pc' := s.threads[tid], s'.threads[tid];
    if pc.PushAdvance? && pc'.PushSlot? then Enqueue(pc.value)
    else if pc.PushCheck? && pc'.Idle? then SawFull
    else if pc.PopAdvance? && pc'.PopSlot? && Consumed(s) < |s.trace.issued| then Dequeue(s.trace.issued[Consumed(s)])
    else if pc.PopCheck? && pc'.Idle? then SawEmpty
    else Silent
  }

  /** The difference of the counters is that of the positions. */
  lemma DistanceOfPositions(c: Config, a: nat, b: nat)
    requires SignedSize(c) && b <= a <= b + c.Size()
    ensures Distance(c, Rep(c, a), Rep(c, b)) == a - b && Capacity(c) == c.Size()
  {
    if c.wrap { WrappedDifference(a, b); }
  }

  lemma WrappedDifference(a: nat, b: nat)
    requires b <= a < b + WORD
    ensures (a % WORD - b % WORD) % WORD == a - b
  {
  }

  /** The step of `tid` leaves the abstract queue alone. */
  ghost predicate LeavesQueue<V>(c: Config, s: State<V>, s': State<V>, p: nat, q: nat, tid: nat)
    requires tid < |s.threads| == |s'.threads| && p < |s.threads| && q < |s.threads|
  {
    && LetOut(s', q) == LetOut(s, q) && s'.trace.issued == s.trace.issued
    && EffectOf(s, s', tid) == Silent && TicketsBounded(c, s', p, q)
  }

  lemma CallLeavesQueue<V>(c: Config, s: State<V>, p: nat, q: nat, a: Action<V>)
    requires Counters(c, s, p, q) && TicketsBounded(c, s, p, q) && Shape(c, s) && a.tid < |s.threads|
    requires a.event.Call? && TryEvent(a.event) && RoleRespected(p, q, a)
    ensures LeavesQueue(c, s, StepCall(s, a.tid, a.event.op), p, q, a.tid)
  {
  }

  lemma SlotLeavesQueue<V>(c: Config, s: State<V>, p: nat, q: nat, tid: nat, e: Event<V>)
    requires Counters(c, s, p, q) && TicketsBounded(c, s, p, q) && Shape(c, s) && tid < |s.threads|
    ensures DoesPush(s.threads[tid]) ==> LeavesQueue(c, s, StepDoPush(c, s, tid, e), p, q, tid)
    ensures DoesPop(s.threads[tid]) || s.threads[tid].Idle? ==> LeavesQueue(c, s, StepDoPop(c, s, tid, e), p, q, tid)
  {
  }

  /** Calls and the negotiation of a slot leave the abstract queue alone. */
  lemma QueueUntouched<V>(c: Config, s: State<V>, p: nat, q: nat, a: Action<V>)
    requires Bounded(c, s, p, q) && a.tid < |s.threads| && TryEvent(a.event) && RoleRespected(p, q, a)
    requires a.event.Call? || DoesPush(s.threads[a.tid]) || DoesPop(s.threads[a.tid]) || s.threads[a.tid].Idle?
    ensures LeavesQueue(c, s, Step(c, s, a), p, q, a.tid)
  {
    if a.event.Call? { CallLeavesQueue(c, s, p, q, a); } else { SlotLeavesQueue(c, s, p, q, a.tid, a.event); }
  }

  lemma TryPushEffect<V>(c: Config, s: State<V>, p: nat, q: nat, e: Event<V>)
    requires Bounded(c, s, p, q) && SignedSize(c) && TakesPush(s.threads[p])
    ensures var s' := StepTryPush(c, s, p, e);
            && LetOut(s', q) == LetOut(s, q) && TicketsBounded(c, s', p, q)
            && match EffectOf(s, s', p)
               case Enqueue(v) =>
                 |s'.trace.issued| <= LetOut(s, q) + c.Size() && s'.trace.issued == s.trace.issued + [v]
               case SawFull =>
                 |s.trace.issued| == LetOut(s, q) + c.Size() && s'.trace.issued == s.trace.issued
               case other =>
                 other == Silent && s'.trace.issued == s.trace.issued
  {
    DistanceOfPositions(c, |s.trace.issued|, LetOut(s, q));
  }

  lemma TryPopEffect<V>(c: Config, s: State<V>, p: nat, q: nat, e: Event<V>)
    requires Bounded(c, s, p, q) && SignedSize(c) && TakesPop(s.threads[q])
    ensures var s' := StepTryPop(c, s, q, e);
            && s'.trace.issued == s.trace.issued && TicketsBounded(c, s', p, q)
            && match EffectOf(s, s', q)
               case Dequeue(v) =>
                 LetOut(s', q) == LetOut(s, q) + 1 <= |s.trace.issued| && v == s.trace.issued[LetOut(s, q)]
               case SawEmpty => LetOut(s', q) == LetOut(s, q) == |s.trace.issued|
               case other => other == Silent && LetOut(s', q) == LetOut(s, q)
  {
    DistanceOfPositions(c, |s.trace.issued|, LetOut(s, q));
  }

  /** What the positions do to the values between them. */
  lemma SliceStep<V>(issued: seq<V>, out: nat, issued': seq<V>, out': nat, size: nat, e: Effect<V>)
    requires out <= |issued| <= out + size && out' <= |issued'|
    requires match e
             case Enqueue(v) => out' == out && |issued'| <= out + size && issued' == issued + [v]
             case Dequeue(v) => out' == out + 1 && issued' == issued && v == issued[out]
             case SawFull => out' == out && |issued| == out + size && issued' == issued
             case SawEmpty => out' == out == |issued| && issued' == issued
             case Silent => out' == out && issued' == issued
    ensures BoundedQueueStep(issued[out..], issued'[out'..], size, e)
  {
    match e
    case Dequeue(v) => assert issued[out..] == [v] + issued[out + 1..];
    case Enqueue(v) => assert issued'[out..] == issued[out..] + [v];
    case _ =>
  }

  lemma QueueRefines<V>(c: Config, s: State<V>, p: nat, q: nat, a: Action<V>)
    requires Bounded(c, s, p, q) && SignedSize(c) && a.tid < |s.threads| && RoleRespected(p, q, a) && TryEvent(a.event)
    ensures Bounded(c, Step(c, s, a), p, q)
    ensures var s' := Step(c, s, a);
            BoundedQueueStep(Queue(c, s, p, q), Queue(c, s', p, q), c.Size(), EffectOf(s, s', a.tid))
  {
    FifoStep(c, s, p, q, a);
    var pc, s' := s.threads[a.tid], Step(c, s, a);
    if a.event.Call? || DoesPush(pc) || DoesPop(pc) || pc.Idle? {
      QueueUntouched(c, s, p, q, a);
    } else if TakesPush(pc) {
      TryPushEffect(c, s, p, q, a.event);
    } else {
      TryPopEffect(c, s, p, q, a.event);
    }
    SliceStep(s.trace.issued, LetOut(s, q), s'.trace.issued, LetOut(s', q), c.Size(), EffectOf(s, s', a.tid));
  }

  /** The effects of a run, in order. */
  ghost function Effects<V>(c: Config, s: State<V>, run: seq<Action<V>>): seq<Effect<V>>
    requires Shape(c, s) && Schedule(|s.threads|, run)
    decreases |run|
  {
    if run == [] then []
    else [EffectOf(s, Step(c, s, run[0]), run[0].tid)] + Effects(c, Step(c, s, run[0]), run[1..])
  }

  /** `es` takes a bounded queue from `q` to `q'`. */
  ghost predicate BoundedQueueRun<V(!new)>(q: seq<V>, q': seq<V>, capacity: nat, es: seq<Effect<V>>)
    decreases |es|
  {
    if es == [] then q' == q
    else exists m :: BoundedQueueStep(q, m, capacity, es[0]) && BoundedQueueRun(m, q', capacity, es[1..])
  }

  lemma {:induction false} RunRefines<V(!new)>(c: Config, s: State<V>, p: nat, q: nat, run: seq<Action<V>>)
    requires Bounded(c, s, p, q) && SignedSize(c)
    requires Schedule(|s.threads|, run) && OneEachSide(p, q, run) && TryOnly(run)
    ensures Bounded(c, Run(c, s, run), p, q)
    ensures BoundedQueueRun(Queue(c, s, p, q), Queue(c, Run(c, s, run), p, q), c.Size(), Effects(c, s, run))
    decreases |run|
  {
    if run != [] {
      assert RoleRespected(p, q, run[0]) && TryEvent(run[0].event);
      QueueRefines(c, s, p, q, run[0]);
      var m := Step(c, s, run[0]);
      RunRefines(c, m, p, q, run[1..]);
      var es := Effects(c, s, run);
      assert es[0] == EffectOf(s, m, run[0].tid) && es[1..] == Effects(c, m, run[1..]);
      assert BoundedQueueStep(Queue(c, s, p, q), Queue(c, m, p, q), c.Size(), es[0]);
    }
  }

  /** Every run of try_push and try_pop by one thread on each side, with unbounded counters or with 32-bit ones
      and any size below 2^31, is a run of a bounded sequence of capacity `size`: a refusal happens only when it
      is full and an empty answer only when it is empty. */
  lemma SpscRefinesBoundedQueue<V(!new)>(c: Config, s: State<V>, p: nat, q: nat, run: seq<Action<V>>)
    requires SignedSize(c) && Initial(c, s) && p < |s.threads| && q < |s.threads|
    requires Schedule(|s.threads|, run) && OneEachSide(p, q, run) && TryOnly(run)
    ensures Bounded(c, Run(c, s, run), p, q)
    ensures BoundedQueueRun([], Queue(c, Run(c, s, run), p, q), c.Size(), Effects(c, s, run))
  {
    FifoInit(c, s, p, q);
    RunRefines(c, s, p, q, run);
  }

  // ---------------------------------------------------------------- exactly which sizes

  ghost predicate AlwaysRefines<V(!new)>(c: Config, s: State<V>, p: nat, q: nat)
    requires Shape(c, s)
  {
    forall run: seq<Action<V>> | Schedule(|s.threads|, run) && OneEachSide(p, q, run) && TryOnly(run) ::
      exists end :: BoundedQueueRun([], end, c.Size(), Effects(c, s, run))
  }

  /** A push into the empty ring up to its check. */
  ghost function FirstPush<V>(p: nat, v: V): seq<Action<V>> { [Action(p, Call(TryPush(v))), Action(p, Go(v)), Action(p, Go(v))] }

  lemma FirstPushRefused<V(!new)>(c: Config, s: State<V>, p: nat, v: V)
    requires c.wrap && WORD / 2 <= c.Size() < WORD && Initial(c, s) && p < |s.threads|
    ensures Schedule(|s.threads|, FirstPush(p, v)) && Effects(c, s, FirstPush(p, v)) == [Silent, Silent, SawFull]
  {
    var run := FirstPush(p, v);
    var s1 := Step(c, s, run[0]);
    var s2 := Step(c, s1, run[1]);
    assert s1.threads[p] == PushLoad(v) && s2.threads[p] == PushCheck(v, 0) && s2.tail == 0;
    assert run[1..] == [run[1], run[2]] && run[1..][1..] == [run[2]] && run[1..][1..][1..] == [];
    assert Effects(c, s2, [run[2]]) == [SawFull] + [];
  }

  /** The 32-bit ring answers like a bounded queue in every run exactly when it has fewer than 2^31 slots. */
  lemma RefinesIffSignedSize<V(!new)>(c: Config, s: State<V>, p: nat, q: nat, v: V)
    requires c.wrap && c.Size() < WORD && Initial(c, s) && p < |s.threads| && q < |s.threads|
    ensures AlwaysRefines(c, s, p, q) <==> c.Size() < WORD / 2
  {
    if c.Size() < WORD / 2 {
      forall run: seq<Action<V>> | Schedule(|s.threads|, run) && OneEachSide(p, q, run) && TryOnly(run)
        ensures exists end :: BoundedQueueRun([], end, c.Size(), Effects(c, s, run))
      {
        SpscRefinesBoundedQueue(c, s, p, q, run);
      }
    } else {
      var run, es := FirstPush(p, v), [Silent, Silent, SawFull];
      FirstPushRefused(c, s, p, v);
      forall end ensures !BoundedQueueRun([], end, c.Size(), Effects(c, s, run)) { NeverFull(c.Size(), end, es); }
    }
  }

  lemma SkipSilent<V(!new)>(q: seq<V>, end: seq<V>, size: nat, es: seq<Effect<V>>)
    requires es != [] && es[0].Silent?
    ensures BoundedQueueRun(q, end, size, es) ==> BoundedQueueRun(q, end, size, es[1..])
  {
  }

  lemma FullFirst<V(!new)>(q: seq<V>, end: seq<V>, size: nat, es: seq<Effect<V>>)
    requires es != [] && es[0].SawFull?
    ensures BoundedQueueRun(q, end, size, es) ==> |q| == size
  {
  }

  /** A queue on which nothing has happened is not full. */
  lemma NeverFull<V(!new)>(size: nat, end: seq<V>, es: seq<Effect<V>>)
    requires size > 0 && es == [Silent, Silent, SawFull]
    ensures !BoundedQueueRun([], end, size, es)
  {
    SkipSilent([], end, size, es);
    SkipSilent([], end, size, es[1..]);
    FullFirst([], end, size, es[2..]);
    assert es[1..][1..] == es[2..];
  }
}
