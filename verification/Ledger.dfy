/** The per-slot ledger of the lock-free ring: how tickets issued, operations waiting on a slot and the
    slot's state fit together in every reachable state of the compare-and-swap branches. */
module Ledger {
  import opened IndexMap
  import opened AtomicQueue

  datatype Role = AwaitsPush | Stores | AwaitsPop | Loads

  /** Whether a thread at `pc` plays `role` on slot `i`. */
  ghost predicate Plays<V>(c: Config, pc: Pc<V>, role: Role, i: nat)
    requires WfConfig(c)
  {
    match role
    case AwaitsPush => pc.PushSlot? && Slot(c, pc.head) == i
    case Stores => (pc.PushWrite? || pc.PushPublish?) && Slot(c, pc.head) == i
    case AwaitsPop => pc.PopSlot? && Slot(c, pc.tail) == i
    case Loads => (pc.PopRead? || pc.PopRelease?) && Slot(c, pc.tail) == i
  }

  ghost function One(b: bool): nat { if b then 1 else 0 }

  /** How many threads play `role` on slot `i`. */
  ghost function Count<V>(c: Config, ts: seq<Pc<V>>, role: Role, i: nat): nat
    requires WfConfig(c)
  {
    if ts == [] then 0 else One(Plays(c, ts[0], role, i)) + Count(c, ts[1..], role, i)
  }

  lemma {:induction false} CountUpdate<V>(c: Config, ts: seq<Pc<V>>, k: nat, pc: Pc<V>, role: Role, i: nat)
    requires WfConfig(c) && k < |ts|
    ensures Count(c, ts[k := pc], role, i) + One(Plays(c, ts[k], role, i))
         == Count(c, ts, role, i) + One(Plays(c, pc, role, i))
  {
    if k == 0 {
      assert ts[0 := pc][1..] == ts[1..];
    } else {
      assert ts[k := pc][1..] == ts[1..][k - 1 := pc];
      CountUpdate(c, ts[1..], k - 1, pc, role, i);
    }
  }

  lemma {:induction false} CountAtLeastOne<V>(c: Config, ts: seq<Pc<V>>, k: nat, role: Role, i: nat)
    requires WfConfig(c) && k < |ts| && Plays(c, ts[k], role, i)
    ensures Count(c, ts, role, i) >= 1
  {
    if k > 0 { CountAtLeastOne(c, ts[1..], k - 1, role, i); }
  }

  lemma {:induction false} CountAtLeastTwo<V>(c: Config, ts: seq<Pc<V>>, j: nat, k: nat, role: Role, i: nat)
    requires WfConfig(c) && j < k < |ts| && Plays(c, ts[j], role, i) && Plays(c, ts[k], role, i)
    ensures Count(c, ts, role, i) >= 2
  {
    if j > 0 {
      CountAtLeastTwo(c, ts[1..], j - 1, k - 1, role, i);
    } else {
      CountAtLeastOne(c, ts[1..], k - 1, role, i);
    }
  }

  lemma {:induction false} CountWitness<V>(c: Config, ts: seq<Pc<V>>, role: Role, i: nat) returns (k: nat)
    requires WfConfig(c) && Count(c, ts, role, i) > 0
    ensures k < |ts| && Plays(c, ts[k], role, i)
  {
    if Plays(c, ts[0], role, i) {
      k := 0;
    } else {
      k := CountWitness(c, ts[1..], role, i);
      k := k + 1;
    }
  }

  lemma {:induction false} CountNone<V>(c: Config, ts: seq<Pc<V>>, role: Role, i: nat)
    requires WfConfig(c) && forall k | 0 <= k < |ts| :: !Plays(c, ts[k], role, i)
    ensures Count(c, ts, role, i) == 0
  {
    if ts != [] { CountNone(c, ts[1..], role, i); }
  }

  /** How many of the first `n` tickets use slot `i`. */
  ghost function Issued(c: Config, n: nat, i: nat): nat
    requires WfConfig(c)
  {
    if n == 0 then 0 else Issued(c, n - 1, i) + One(Slot(c, n - 1) == i)
  }

  /** Among consecutive tickets, no more of them than there are slots, each slot occurs at most once, and
      exactly once if one of them maps to it. */
  lemma {:induction false} IssuedWithin(c: Config, low: nat, high: nat, i: nat)
    requires WfConfig(c) && low <= high <= low + c.Size()
    ensures 0 <= Issued(c, high, i) - Issued(c, low, i) <= 1
    ensures Issued(c, high, i) - Issued(c, low, i) == 1 <==> exists t: nat :: low <= t < high && Slot(c, t) == i
    decreases high - low
  {
    if low < high {
      IssuedWithin(c, low, high - 1, i);
      if Slot(c, high - 1) == i {
        forall t: nat | low <= t < high - 1 ensures Slot(c, t) != i {
          SlotsCollide(c, t, high - 1);
          DistinctRemainders(t, high - 1, c.Size());
        }
        assert low <= high - 1 < high;
      }
    }
  }

  lemma DistinctRemainders(a: nat, b: nat, n: nat)
    requires a < b < a + n
    ensures a % n != b % n
  {
    if a % n == b % n {
      Bits.ProductAtLeast(b / n - a / n, n);
      Difference(a, b, n);
    }
  }

  lemma Difference(a: nat, b: nat, n: nat)
    requires n > 0
    ensures b - a == (b / n - a / n) * n + (b % n - a % n)
  {
    assert a == n * (a / n) + a % n;
    assert b == n * (b / n) + b % n;
    assert (b / n - a / n) * n == n * (b / n) - n * (a / n);
  }

  lemma SlotsApart(c: Config, a: nat, b: nat)
    requires WfConfig(c)
    ensures a != b && a < b + c.Size() && b < a + c.Size() ==> Slot(c, a) != Slot(c, b)
    ensures Slot(c, a + c.Size()) == Slot(c, a)
  {
    SlotsCollide(c, a, b);
    if a < b < a + c.Size() { DistinctRemainders(a, b, c.Size()); }
    if b < a < b + c.Size() { DistinctRemainders(b, a, c.Size()); }
    NextLap(a, c.Size());
  }

  lemma NextLap(a: nat, n: nat)
    requires n > 0
    ensures (a + n) % n == a % n
  {
    var q, r := a / n, a % n;
    assert a + n == (q + 1) * n + r by { assert (q + 1) * n == q * n + n; }
    Bits.QuotientIs(a + n, n, q + 1, r);
  }

  /** The tickets near `u` have other slots. */
  lemma NeighboursApart(c: Config, u: nat)
    requires WfConfig(c)
    ensures forall t: nat :: t != u && u < t + c.Size() && t < u + c.Size() ==> Slot(c, t) != Slot(c, u)
  {
    forall t: nat ensures t != u && u < t + c.Size() && t < u + c.Size() ==> Slot(c, t) != Slot(c, u) {
      SlotsApart(c, t, u);
    }
  }

  // ---------------------------------------------------------------- the invariant

  /** One slot's balance: pushes let in minus pops let in is one while the slot is STORING or STORED and
      zero while it is EMPTY or LOADING; STORING and LOADING belong to exactly one thread each. */
  ghost predicate SlotBalances<V>(c: Config, s: State<V>, i: nat)
    requires Shape(c, s) && i < c.Size()
  {
    && Issued(c, s.head, i) - Count(c, s.threads, AwaitsPush, i)
       == Issued(c, s.tail, i) - Count(c, s.threads, AwaitsPop, i)
          + One(s.states[i] == STORING || s.states[i] == STORED)
    && Count(c, s.threads, Stores, i) == One(s.states[i] == STORING)
    && Count(c, s.threads, Loads, i) == One(s.states[i] == LOADING)
  }

  ghost predicate Balanced<V>(c: Config, s: State<V>)
    requires Shape(c, s)
  {
    forall i: nat | i < c.Size() :: SlotBalances(c, s, i)
  }

  /** The idealised machine with the compare-and-swap branches. */
  ghost predicate Ideal(c: Config) { !c.wrap && !c.spsc }

  ghost predicate LedgerInv<V>(c: Config, s: State<V>) {
    Shape(c, s) && Ideal(c) && Balanced(c, s)
  }

  lemma LedgerInit<V>(c: Config, s: State<V>)
    requires Ideal(c) && Initial(c, s)
    ensures LedgerInv(c, s)
  {
    forall i: nat | i < c.Size() ensures SlotBalances(c, s, i) {
      CountNone(c, s.threads, AwaitsPush, i);
      CountNone(c, s.threads, Stores, i);
      CountNone(c, s.threads, AwaitsPop, i);
      CountNone(c, s.threads, Loads, i);
    }
  }

  lemma LedgerStep<V>(c: Config, s: State<V>, a: Action<V>)
    requires LedgerInv(c, s) && a.tid < |s.threads|
    ensures LedgerInv(c, Step(c, s, a))
  {
    var s' := Step(c, s, a);
    forall i: nat | i < c.Size() ensures SlotBalances(c, s', i) {
      SlotStep(c, s, a, i);
    }
  }

  ghost function Full(st: SlotState): nat { One(st == STORING || st == STORED) }

  /** A change of `role` on slot `i` when a thread goes from `pc` to `pc'`. */
  ghost function Gain<V>(c: Config, pc: Pc<V>, pc': Pc<V>, role: Role, i: nat): int
    requires WfConfig(c)
  {
    One(Plays(c, pc', role, i)) - One(Plays(c, pc, role, i))
  }

  /** The step from `s` to `s'` by thread `tid` moves slot `i`'s books by equal amounts on both sides. */
  ghost predicate KeepsBalance<V>(c: Config, s: State<V>, s': State<V>, tid: nat, i: nat)
    requires Shape(c, s) && Shape(c, s') && i < c.Size() && tid < |s.threads| && tid < |s'.threads|
  {
    var pc, pc' := s.threads[tid], s'.threads[tid];
    && Issued(c, s'.head, i) - Issued(c, s.head, i) - Gain(c, pc, pc', AwaitsPush, i)
       == Issued(c, s'.tail, i) - Issued(c, s.tail, i) - Gain(c, pc, pc', AwaitsPop, i)
          + Full(s'.states[i]) - Full(s.states[i])
    && Gain(c, pc, pc', Stores, i) == One(s'.states[i] == STORING) - One(s.states[i] == STORING)
    && Gain(c, pc, pc', Loads, i) == One(s'.states[i] == LOADING) - One(s.states[i] == LOADING)
  }

  lemma BalanceKept<V>(c: Config, s: State<V>, s': State<V>, tid: nat, i: nat)
    requires Shape(c, s) && Shape(c, s') && i < c.Size() && tid < |s.threads| == |s'.threads|
    requires s'.threads == s.threads[tid := s'.threads[tid]]
    requires SlotBalances(c, s, i) && KeepsBalance(c, s, s', tid, i)
    ensures SlotBalances(c, s', i)
  {
    var pc' := s'.threads[tid];
    CountUpdate(c, s.threads, tid, pc', AwaitsPush, i);
    CountUpdate(c, s.threads, tid, pc', Stores, i);
    CountUpdate(c, s.threads, tid, pc', AwaitsPop, i);
    CountUpdate(c, s.threads, tid, pc', Loads, i);
  }

  /** The thread that is storing into a slot finds it STORING, the one that is loading finds it LOADING. */
  lemma OwnerSees<V>(c: Config, s: State<V>, tid: nat, i: nat)
    requires LedgerInv(c, s) && tid < |s.threads| && i < c.Size()
    ensures Plays(c, s.threads[tid], Stores, i) ==> s.states[i] == STORING
    ensures Plays(c, s.threads[tid], Loads, i) ==> s.states[i] == LOADING
  {
    assert SlotBalances(c, s, i);
    if Plays(c, s.threads[tid], Stores, i) { CountAtLeastOne(c, s.threads, tid, Stores, i); }
    if Plays(c, s.threads[tid], Loads, i) { CountAtLeastOne(c, s.threads, tid, Loads, i); }
  }

  lemma SlotStep<V>(c: Config, s: State<V>, a: Action<V>, i: nat)
    requires LedgerInv(c, s) && a.tid < |s.threads| && i < c.Size()
    ensures SlotBalances(c, Step(c, s, a), i)
  {
    OwnerSees(c, s, a.tid, i);
    StepKeepsBalance(c, s, a, i);
    assert SlotBalances(c, s, i);
    BalanceKept(c, s, Step(c, s, a), a.tid, i);
  }

  lemma StepKeepsBalance<V>(c: Config, s: State<V>, a: Action<V>, i: nat)
    requires Shape(c, s) && Ideal(c) && a.tid < |s.threads| && i < c.Size()
    requires Plays(c, s.threads[a.tid], Stores, i) ==> s.states[i] == STORING
    requires Plays(c, s.threads[a.tid], Loads, i) ==> s.states[i] == LOADING
    ensures KeepsBalance(c, s, Step(c, s, a), a.tid, i)
  {
    var pc := s.threads[a.tid];
    if a.event.Call? {
      CallKeepsBalance(c, s, a.tid, a.event.op, i);
    } else if TakesPush(pc) {
      TryPushKeepsBalance(c, s, a.tid, a.event, i);
    } else if DoesPush(pc) {
      DoPushKeepsBalance(c, s, a.tid, a.event, i);
    } else if TakesPop(pc) {
      TryPopKeepsBalance(c, s, a.tid, a.event, i);
    } else {
      DoPopKeepsBalance(c, s, a.tid, a.event, i);
    }
  }

  lemma CallKeepsBalance<V>(c: Config, s: State<V>, tid: nat, op: Op<V>, i: nat)
    requires Shape(c, s) && tid < |s.threads| && i < c.Size()
    ensures var s' := StepCall(s, tid, op); Shape(c, s') && KeepsBalance(c, s, s', tid, i)
  {
  }

  lemma TryPushKeepsBalance<V>(c: Config, s: State<V>, tid: nat, e: Event<V>, i: nat)
    requires Shape(c, s) && Ideal(c) && tid < |s.threads| && i < c.Size() && TakesPush(s.threads[tid])
    ensures var s' := StepTryPush(c, s, tid, e); Shape(c, s') && KeepsBalance(c, s, s', tid, i)
  {
    var s' := StepTryPush(c, s, tid, e);
    var pc' := s'.threads[tid];
    assert s'.states == s.states && s'.tail == s.tail;
    assert s'.head == s.head || (s'.head == s.head + 1 && pc'.PushSlot? && pc'.head == s.head);
    assert s'.head == s.head ==> !DoesPush(pc') && !DoesPop(pc');
  }

  lemma DoPushKeepsBalance<V>(c: Config, s: State<V>, tid: nat, e: Event<V>, i: nat)
    requires Shape(c, s) && Ideal(c) && tid < |s.threads| && i < c.Size() && DoesPush(s.threads[tid])
    requires Plays(c, s.threads[tid], Stores, i) ==> s.states[i] == STORING
    ensures var s' := StepDoPush(c, s, tid, e); Shape(c, s') && KeepsBalance(c, s, s', tid, i)
  {
  }

  lemma TryPopKeepsBalance<V>(c: Config, s: State<V>, tid: nat, e: Event<V>, i: nat)
    requires Shape(c, s) && Ideal(c) && tid < |s.threads| && i < c.Size() && TakesPop(s.threads[tid])
    ensures var s' := StepTryPop(c, s, tid, e); Shape(c, s') && KeepsBalance(c, s, s', tid, i)
  {
    var s' := StepTryPop(c, s, tid, e);
    var pc' := s'.threads[tid];
    assert s'.states == s.states && s'.head == s.head;
    assert s'.tail == s.tail || (s'.tail == s.tail + 1 && pc'.PopSlot? && pc'.tail == s.tail);
    assert s'.tail == s.tail ==> !DoesPush(pc') && !DoesPop(pc');
  }

  lemma DoPopKeepsBalance<V>(c: Config, s: State<V>, tid: nat, e: Event<V>, i: nat)
    requires Shape(c, s) && Ideal(c) && tid < |s.threads| && i < c.Size() && !TakesPush(s.threads[tid]) && !DoesPush(s.threads[tid])
    requires Plays(c, s.threads[tid], Loads, i) ==> s.states[i] == LOADING
    ensures var s' := StepDoPop(c, s, tid, e); Shape(c, s') && KeepsBalance(c, s, s', tid, i)
  {
    var s' := StepDoPop(c, s, tid, e);
    assert s'.head == s.head && s'.tail == s.tail;
    assert DoesPop(s.threads[tid]) && Slot(c, s.threads[tid].tail) != i ==> s'.states[i] == s.states[i];
  }

  function Following(st: SlotState): SlotState {
    match st case EMPTY => STORING case STORING => STORED case STORED => LOADING case LOADING => EMPTY
  }

  /** What one access can do to a ring whose books are right: move one counter on by one, or move one slot on
      in the cycle EMPTY, STORING, STORED, LOADING, or change one element while its slot is STORING or
      LOADING; never two of these. */
  lemma SlotsGoRound<V>(c: Config, s: State<V>, a: Action<V>)
    requires LedgerInv(c, s) && a.tid < |s.threads|
    ensures var s' := Step(c, s, a);
            || (s'.states == s.states && s'.elements == s.elements
                && ((s'.head == s.head && s'.tail == s.tail) || (s'.head == s.head + 1 && s'.tail == s.tail)
                    || (s'.head == s.head && s'.tail == s.tail + 1)))
            || (s'.head == s.head && s'.tail == s.tail && s'.elements == s.elements
                && exists i: nat :: i < c.Size() && s'.states == s.states[i := Following(s.states[i])])
            || (s'.head == s.head && s'.tail == s.tail && s'.states == s.states
                && exists i: nat :: i < c.Size() && s'.elements == s.elements[i := s'.elements[i]]
                                    && (s.states[i] == STORING || s.states[i] == LOADING))
  {
    var s', pc := Step(c, s, a), s.threads[a.tid];
    if !a.event.Call? && (DoesPush(pc) || DoesPop(pc)) {
      var i := Slot(c, if DoesPush(pc) then pc.head else pc.tail);
      OwnerSees(c, s, a.tid, i);
      SlotStepGoesRound(c, s, a, i);
    }
  }

  lemma SlotStepGoesRound<V>(c: Config, s: State<V>, a: Action<V>, i: nat)
    requires LedgerInv(c, s) && a.tid < |s.threads| && !a.event.Call?
    requires var pc := s.threads[a.tid];
             (DoesPush(pc) && i == Slot(c, pc.head)) || (DoesPop(pc) && i == Slot(c, pc.tail))
    requires Plays(c, s.threads[a.tid], Stores, i) ==> s.states[i] == STORING
    requires Plays(c, s.threads[a.tid], Loads, i) ==> s.states[i] == LOADING
    ensures var s' := Step(c, s, a);
            && s'.head == s.head && s'.tail == s.tail
            && (|| (s'.states == s.states && s'.elements == s.elements)
                || (s'.elements == s.elements && s'.states == s.states[i := Following(s.states[i])])
                || (s'.states == s.states && s'.elements == s.elements[i := s'.elements[i]]
                    && (s.states[i] == STORING || s.states[i] == LOADING)))
  {
  }

  lemma {:induction false} LedgerRun<V>(c: Config, s: State<V>, run: seq<Action<V>>)
    requires LedgerInv(c, s) && Schedule(|s.threads|, run)
    ensures LedgerInv(c, Run(c, s, run))
    decreases |run|
  {
    if run != [] {
      LedgerStep(c, s, run[0]);
      LedgerRun(c, Step(c, s, run[0]), run[1..]);
    }
  }

  // ---------------------------------------------------------------- exclusive access to elements

  /** The slot whose element a thread at `pc` owns, between claiming it and releasing it. */
  ghost predicate Owns<V>(c: Config, pc: Pc<V>, i: nat)
    requires WfConfig(c)
  {
    Plays(c, pc, Stores, i) || Plays(c, pc, Loads, i)
  }

  lemma OwnersDiffer<V>(c: Config, s: State<V>, j: nat, k: nat, i: nat)
    requires LedgerInv(c, s) && j < |s.threads| && k < |s.threads| && j != k && i < c.Size()
    ensures !(Owns(c, s.threads[j], i) && Owns(c, s.threads[k], i))
  {
    OwnerSees(c, s, j, i);
    OwnerSees(c, s, k, i);
    assert SlotBalances(c, s, i);
    var lo, hi := if j < k then j else k, if j < k then k else j;
    if Plays(c, s.threads[lo], Stores, i) && Plays(c, s.threads[hi], Stores, i) {
      CountAtLeastTwo(c, s.threads, lo, hi, Stores, i);
    }
    if Plays(c, s.threads[lo], Loads, i) && Plays(c, s.threads[hi], Loads, i) {
      CountAtLeastTwo(c, s.threads, lo, hi, Loads, i);
    }
  }

  /** In every run, blocking operations included, no two threads own one element at the same time; a slot
      is STORING or LOADING exactly while one thread owns it. */
  lemma ElementsAreExclusive<V>(c: Config, s: State<V>, run: seq<Action<V>>, i: nat)
    requires Ideal(c) && Initial(c, s) && Schedule(|s.threads|, run) && i < c.Size()
    ensures var r := Run(c, s, run);
            && (forall j, k | 0 <= j < k < |r.threads| :: !(Owns(c, r.threads[j], i) && Owns(c, r.threads[k], i)))
            && (r.states[i] == STORING <==> exists k :: 0 <= k < |r.threads| && Plays(c, r.threads[k], Stores, i))
            && (r.states[i] == LOADING <==> exists k :: 0 <= k < |r.threads| && Plays(c, r.threads[k], Loads, i))
  {
    LedgerInit(c, s);
    LedgerRun(c, s, run);
    var r := Run(c, s, run);
    forall j, k | 0 <= j < k < |r.threads|
      ensures !(Owns(c, r.threads[j], i) && Owns(c, r.threads[k], i)) {
      OwnersDiffer(c, r, j, k, i);
    }
    assert SlotBalances(c, r, i);
    if r.states[i] == STORING { var k := CountWitness(c, r.threads, Stores, i); }
    if r.states[i] == LOADING { var k := CountWitness(c, r.threads, Loads, i); }
    forall k | 0 <= k < |r.threads|
      ensures Plays(c, r.threads[k], Stores, i) ==> r.states[i] == STORING
      ensures Plays(c, r.threads[k], Loads, i) ==> r.states[i] == LOADING {
      OwnerSees(c, r, k, i);
    }
  }

  // ---------------------------------------------------------------- bounds in runs of try_push and try_pop

  /** What a thread's stale counters still guarantee. */
  ghost predicate PcBounded<V>(c: Config, s: State<V>, pc: Pc<V>) {
    match pc
    case PushCheck(_, h) => h <= s.head
    case PushAdvance(_, h) => h <= s.head && h < s.tail + c.Size()
    case PushTake(_) => false
    case PushSlot(_, h) => h < s.head
    case PushWrite(_, h) => h < s.head
    case PushPublish(_, h) => h < s.head
    case PopCheck(t) => t <= s.tail
    case PopAdvance(t) => t <= s.tail && t < s.head
    case PopTake => false
    case PopSlot(t) => t < s.tail
    case PopRead(t) => t < s.tail
    case PopRelease(t, _) => t < s.tail
    case _ => true
  }

  ghost predicate BoundsInv<V>(c: Config, s: State<V>) {
    && Shape(c, s) && Ideal(c)
    && s.tail <= s.head <= s.tail + c.Size()
    && forall k | 0 <= k < |s.threads| :: PcBounded(c, s, s.threads[k])
  }

  ghost predicate TryEvent<V>(e: Event<V>) { e.Call? ==> e.op.TryPush? || e.op.TryPop? }

  lemma BoundsStep<V>(c: Config, s: State<V>, a: Action<V>)
    requires BoundsInv(c, s) && a.tid < |s.threads| && TryEvent(a.event)
    ensures BoundsInv(c, Step(c, s, a))
  {
    var s' := Step(c, s, a);
    assert PcBounded(c, s, s.threads[a.tid]);
    assert s.head <= s'.head && s.tail <= s'.tail;
    forall k | 0 <= k < |s'.threads| ensures PcBounded(c, s', s'.threads[k]) {
      if k != a.tid {
        assert s'.threads[k] == s.threads[k] && PcBounded(c, s, s.threads[k]);
      }
    }
  }

  lemma {:induction false} BoundsRun<V>(c: Config, s: State<V>, run: seq<Action<V>>)
    requires BoundsInv(c, s) && Schedule(|s.threads|, run) && TryOnly(run)
    ensures BoundsInv(c, Run(c, s, run))
    decreases |run|
  {
    if run != [] {
      assert TryEvent(run[0].event);
      BoundsStep(c, s, run[0]);
      BoundsRun(c, Step(c, s, run[0]), run[1..]);
    }
  }

  /** In every run of try_push and try_pop, however stale the loads: the counters stay within one capacity
      of each other, and on each slot the tickets given to pushes lead those given to pops by 0 or 1 --
      by 1 exactly when a ticket in `[tail, head)` maps to the slot. */
  lemma CountersStayClose<V>(c: Config, s: State<V>, run: seq<Action<V>>, i: nat)
    requires Ideal(c) && Initial(c, s) && Schedule(|s.threads|, run) && TryOnly(run) && i < c.Size()
    ensures var r := Run(c, s, run);
            && r.tail <= r.head <= r.tail + c.Size()
            && 0 <= Issued(c, r.head, i) - Issued(c, r.tail, i) <= 1
            && (Issued(c, r.head, i) - Issued(c, r.tail, i) == 1
                <==> exists t: nat :: r.tail <= t < r.head && Slot(c, t) == i)
  {
    BoundsRun(c, s, run);
    var r := Run(c, s, run);
    IssuedWithin(c, r.tail, r.head, i);
  }
}
