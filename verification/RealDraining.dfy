/** Draining of the queue with 32-bit counters. */
module RealDraining {
  import opened Bits
  import opened AtomicQueue
  import opened Ledger
  import opened Draining
  import opened Word32

  // ---------------------------------------------------------------- the same work, the same accesses

  /** A loaded counter that is up to date modulo 2^32 is up to date. */
  lemma SameWork<V>(c: Config, s: State<V>, pc: Pc<V>, n: nat)
    requires PcBounded(c, s, pc)
    requires match pc
             case PushCheck(_, h) => s.head - h < WORD
             case PushAdvance(_, h) => s.head - h < WORD
             case PopCheck(t) => s.tail - t < WORD
             case PopAdvance(t) => s.tail - t < WORD
             case _ => true
    ensures Work(WrapPc(pc), s.head % WORD, s.tail % WORD, n) == Work(pc, s.head, s.tail, n)
  {
  }

  lemma {:induction false} SameTotal<V>(c: Config, s: State<V>, ts: seq<Pc<V>>, ws: seq<Pc<V>>, n: nat)
    requires |ws| == |ts| && forall k | 0 <= k < |ts| ::
               ws[k] == WrapPc(ts[k]) && Work(ws[k], s.head % WORD, s.tail % WORD, n) == Work(ts[k], s.head, s.tail, n)
    ensures TotalWork(ws, s.head % WORD, s.tail % WORD, n) == TotalWork(ts, s.head, s.tail, n)
  {
    if ts != [] { SameTotal(c, s, ts[1..], ws[1..], n); }
  }

  lemma WrapKeepsMeasure<V>(c: Config, s: State<V>)
    requires WordSized(c) && BoundsInv(c, s) && Fresh(c, s)
    ensures Measure(Wrap(s)) == Measure(s)
  {
    forall k | 0 <= k < |s.threads|
      ensures Work(Wrap(s).threads[k], s.head % WORD, s.tail % WORD, |s.threads|) == Work(s.threads[k], s.head, s.tail, |s.threads|)
    {
      assert PcBounded(c, s, s.threads[k]);
      SameWork(c, s, s.threads[k], |s.threads|);
    }
    SameTotal(c, s, s.threads, Wrap(s).threads, |s.threads|);
  }

  lemma {:induction false} SameEffective<V>(c: Config, s: State<V>, run: seq<Action<V>>)
    requires WordSized(c) && BoundsInv(c, s) && Schedule(|s.threads|, run) && TryOnly(run) && StaysFresh(c, s, run)
    ensures Shape(Real(c), Wrap(s)) && Effective(Real(c), Wrap(s), run) == Effective(c, s, run)
    decreases |run|
  {
    if run != [] {
      assert TryEvent(run[0].event);
      FreshIsTimely(c, s, run[0].tid);
      StepSimulates(c, s, run[0]);
      WrapKeepsRoles(c, s, run[0].tid, 0);
      BoundsStep(c, s, run[0]);
      SameEffective(c, Step(c, s, run[0]), run[1..]);
    }
  }

  lemma {:induction false} FreshInParts<V>(c: Config, s: State<V>, a: seq<Action<V>>, b: seq<Action<V>>)
    requires Shape(c, s) && Schedule(|s.threads|, a) && Schedule(|s.threads|, b)
    requires Schedule(|s.threads|, a + b) && StaysFresh(c, s, a + b)
    ensures StaysFresh(c, s, a) && StaysFresh(c, Run(c, s, a), b)
    decreases |a|
  {
    if a == [] {
      assert a + b == b;
    } else {
      assert (a + b)[0] == a[0] && (a + b)[1..] == a[1..] + b;
      FreshInParts(c, Step(c, s, a[0]), a[1..], b);
    }
  }

  // ---------------------------------------------------------------- at rest

  /** How many tickets are outstanding, and the slot of the `k`-th of them, in 32-bit counting. */
  ghost function Outstanding<V>(s: State<V>): nat { (s.head - s.tail) % WORD }

  ghost function OutstandingSlot(c: Config, tail: nat, k: nat): nat
    requires WfConfig(c)
  {
    Slot(c, (tail + k) % WORD)
  }

  ghost predicate HoldsTicket<V>(c: Config, s: State<V>, i: nat)
    requires WfConfig(c)
  {
    exists k: nat :: k < Outstanding(s) && OutstandingSlot(c, s.tail, k) == i
  }

  /** No operation is in progress, the STORED slots are exactly those of the outstanding tickets, and all others
      are EMPTY. */
  ghost predicate RealAtRest<V>(c: Config, s: State<V>)
    requires Shape(c, s)
  {
    && Quiescent(s)
    && forall i: nat | i < c.Size() ::
         (s.states[i] == STORED || s.states[i] == EMPTY) && (s.states[i] == STORED <==> HoldsTicket(c, s, i))
  }

  lemma OutstandingPlace(c: Config, tail: nat, k: nat)
    requires WordSized(c)
    ensures OutstandingSlot(Real(c), tail % WORD, k) == Slot(c, tail + k)
  {
    WordSum(tail, k);
    SameSlot(c, tail + k);
  }

  lemma WordSum(a: nat, b: nat)
    ensures (a % WORD + b) % WORD == (a + b) % WORD
  {
  }

  lemma OutstandingCount<V>(c: Config, q: State<V>)
    requires WordSized(c) && BoundsInv(c, q)
    ensures Outstanding(Wrap(q)) == q.head - q.tail
  {
    SignedDistance(q.head, q.tail);
  }

  lemma SameTickets<V>(c: Config, q: State<V>, i: nat)
    requires WordSized(c) && BoundsInv(c, q)
    ensures HoldsTicket(Real(c), Wrap(q), i) <==> exists t: nat :: q.tail <= t < q.head && Slot(c, t) == i
  {
    OutstandingCount(c, q);
    if t: nat :| q.tail <= t < q.head && Slot(c, t) == i {
      var k: nat := t - q.tail;
      OutstandingPlace(c, q.tail, k);
      assert OutstandingSlot(Real(c), Wrap(q).tail, k) == i;
    }
    if HoldsTicket(Real(c), Wrap(q), i) {
      var k: nat :| k < Outstanding(Wrap(q)) && OutstandingSlot(Real(c), Wrap(q).tail, k) == i;
      OutstandingPlace(c, q.tail, k);
      assert q.tail <= q.tail + k < q.head && Slot(c, q.tail + k) == i;
    }
  }

  lemma RestInReal<V>(c: Config, q: State<V>)
    requires WordSized(c) && BoundsInv(c, q) && AtRest(c, q)
    ensures Shape(Real(c), Wrap(q)) && RealAtRest(Real(c), Wrap(q))
  {
    forall i: nat | i < c.Size() ensures q.states[i] == STORED <==> HoldsTicket(Real(c), Wrap(q), i) {
      SameTickets(c, q, i);
    }
  }

  /** Once the calls stop in a fresh run of the 32-bit queue, spins and failing swaps included: at most `Measure`
      accesses advance anyone, and one more for each swap that fails by itself; and when no thread can advance any
      more everything is at rest. */
  lemma RealDrainEndsAtRest<V>(c: Config, s: State<V>, run: seq<Action<V>>, drain: seq<Action<V>>)
    requires WordSized(c) && Ideal(c) && Initial(c, s) && Schedule(|s.threads|, run) && TryOnly(run)
    requires Schedule(|s.threads|, drain) && NoCalls(drain)
    requires Schedule(|s.threads|, run + drain) && StaysFresh(c, s, run + drain)
    ensures Shape(Real(c), s)
    ensures var r := Run(Real(c), s, run);
            var e := Run(Real(c), r, drain);
            && Effective(Real(c), r, drain) <= Measure(r) + Failures(drain)
            && ((forall k :: !CanAdvance(Real(c), e, k)) ==> RealAtRest(Real(c), e))
  {
    var q := Run(c, s, run);
    FreshInParts(c, s, run, drain);
    RealRunIsIdealRun(c, s, run);
    TryInvRun(c, s, run);
    WrapKeepsMeasure(c, q);
    SameEffective(c, q, drain);
    EveryDrainEndsAtRest(c, s, run, drain);
    QuietRunsEnd(c, q, drain);
    FreshRunIsTimely(c, q, drain);
    RunSimulates(c, q, drain);
    RestAfterDrain(c, Run(c, q, drain));
  }

  /** Where no thread of the 32-bit queue can advance, none of the unbounded one can. */
  lemma RestAfterDrain<V>(c: Config, e: State<V>)
    requires WordSized(c) && TryInv(c, e)
    ensures Shape(Real(c), Wrap(e))
    ensures (forall k :: !CanAdvance(Real(c), Wrap(e), k)) ==> RealAtRest(Real(c), Wrap(e))
  {
    if Quiescent(e) {
      QuiescentIsAtRest(c, e);
      RestInReal(c, e);
    } else {
      var k := SomeoneCanAdvance(c, e);
      WrapKeepsRoles(c, e, k, 0);
      assert CanAdvance(Real(c), Wrap(e), k);
    }
  }
}
