/** Deadlock freedom and draining of runs made of try_push and try_pop. */
module Draining {
  import opened AtomicQueue
  import opened Ledger

  ghost predicate TryInv<V>(c: Config, s: State<V>) { LedgerInv(c, s) && BoundsInv(c, s) }

  lemma TryInvStep<V>(c: Config, s: State<V>, a: Action<V>)
    requires TryInv(c, s) && a.tid < |s.threads| && TryEvent(a.event)
    ensures TryInv(c, Step(c, s, a))
  {
    LedgerStep(c, s, a);
    BoundsStep(c, s, a);
  }

  lemma TryInvRun<V>(c: Config, s: State<V>, run: seq<Action<V>>)
    requires Ideal(c) && Initial(c, s) && Schedule(|s.threads|, run) && TryOnly(run)
    ensures TryInv(c, Run(c, s, run))
  {
    LedgerInit(c, s);
    LedgerRun(c, s, run);
    BoundsRun(c, s, run);
  }

  /** The next access of thread `k` does something: it is in an operation, and not spinning on a slot that
      is not ready for it. */
  ghost predicate CanAdvance<V>(c: Config, s: State<V>, k: nat)
    requires Shape(c, s)
  {
    && k < |s.threads|
    && !s.threads[k].Idle?
    && (s.threads[k].PushSlot? ==> s.states[Slot(c, s.threads[k].head)] == EMPTY)
    && (s.threads[k].PopSlot? ==> s.states[Slot(c, s.threads[k].tail)] == STORED)
  }

  ghost predicate Quiescent<V>(s: State<V>) {
    forall k | 0 <= k < |s.threads| :: s.threads[k] == Idle
  }

  // ---------------------------------------------------------------- deadlock freedom

  /** A thread spinning on a slot implies that some thread can advance. */
  lemma SpinnerIsNotStuck<V>(c: Config, s: State<V>, k: nat) returns (j: nat)
    requires TryInv(c, s) && k < |s.threads| && (s.threads[k].PushSlot? || s.threads[k].PopSlot?)
    ensures CanAdvance(c, s, j)
  {
    if CanAdvance(c, s, k) { return k; }
    var i := Slot(c, if s.threads[k].PushSlot? then s.threads[k].head else s.threads[k].tail);
    assert SlotBalances(c, s, i);
    IssuedWithin(c, s.tail, s.head, i);
    match s.states[i]
    case STORING => j := CountWitness(c, s.threads, Stores, i);
    case LOADING => j := CountWitness(c, s.threads, Loads, i);
    case EMPTY =>
      CountAtLeastOne(c, s.threads, k, AwaitsPop, i);
      j := CountWitness(c, s.threads, AwaitsPush, i);
    case STORED =>
      CountAtLeastOne(c, s.threads, k, AwaitsPush, i);
      j := CountWitness(c, s.threads, AwaitsPop, i);
  }

  lemma SomeoneCanAdvance<V>(c: Config, s: State<V>) returns (k: nat)
    requires TryInv(c, s) && !Quiescent(s)
    ensures CanAdvance(c, s, k)
  {
    var j :| 0 <= j < |s.threads| && s.threads[j] != Idle;
    if s.threads[j].PushSlot? || s.threads[j].PopSlot? {
      k := SpinnerIsNotStuck(c, s, j);
    } else {
      k := j;
    }
  }

  /** No reachable state is a deadlock: while any operation is in progress, some thread can advance. */
  lemma NeverDeadlocked<V>(c: Config, s: State<V>, run: seq<Action<V>>)
    requires Ideal(c) && Initial(c, s) && Schedule(|s.threads|, run) && TryOnly(run)
    ensures var r := Run(c, s, run); Quiescent(r) || exists k :: CanAdvance(c, r, k)
  {
    TryInvRun(c, s, run);
    var r := Run(c, s, run);
    if !Quiescent(r) { var k := SomeoneCanAdvance(c, r); }
  }

  // ---------------------------------------------------------------- the work left

  /** Work left to a thread at `pc`. Before its ticket a thread may have to retry once for every ticket the
      others take, so losing that race must cost less than taking the ticket saves. */
  ghost function Work<V>(pc: Pc<V>, head: nat, tail: nat, n: nat): nat {
    match pc
    case Idle => 0
    case PushLoad(_) => 2 * n + 8
    case PushTake(_) => 2 * n + 8
    case PushCheck(_, h) => 2 * n + if h == head then 5 else 7
    case PushAdvance(_, h) => 2 * n + if h == head then 4 else 6
    case PushSlot(_, _) => 3
    case PushWrite(_, _) => 2
    case PushPublish(_, _) => 1
    case PopLoad => 2 * n + 8
    case PopTake => 2 * n + 8
    case PopCheck(t) => 2 * n + if t == tail then 5 else 7
    case PopAdvance(t) => 2 * n + if t == tail then 4 else 6
    case PopSlot(_) => 3
    case PopRead(_) => 2
    case PopRelease(_, _) => 1
  }

  ghost function TotalWork<V>(ts: seq<Pc<V>>, head: nat, tail: nat, n: nat): nat {
    if ts == [] then 0 else Work(ts[0], head, tail, n) + TotalWork(ts[1..], head, tail, n)
  }

  ghost function Measure<V>(s: State<V>): nat { TotalWork(s.threads, s.head, s.tail, |s.threads|) }

  lemma {:induction false} WorkGrows<V>(ts: seq<Pc<V>>, h: nat, t: nat, h': nat, t': nat, n: nat)
    ensures TotalWork(ts, h', t', n) <= TotalWork(ts, h, t, n) + 2 * |ts|
    ensures h' == h && t' == t ==> TotalWork(ts, h', t', n) == TotalWork(ts, h, t, n)
  {
    if ts != [] { WorkGrows(ts[1..], h, t, h', t', n); }
  }

  lemma {:induction false} WorkUpdate<V>(ts: seq<Pc<V>>, k: nat, pc: Pc<V>, h: nat, t: nat, h': nat, t': nat, n: nat)
    requires k < |ts|
    ensures TotalWork(ts[k := pc], h', t', n) + Work(ts[k], h, t, n)
         <= TotalWork(ts, h, t, n) + Work(pc, h', t', n) + if h' == h && t' == t then 0 else 2 * |ts|
  {
    if k == 0 {
      assert ts[0 := pc][1..] == ts[1..];
      WorkGrows(ts[1..], h, t, h', t', n);
    } else {
      assert ts[k := pc][1..] == ts[1..][k - 1 := pc];
      WorkUpdate(ts[1..], k - 1, pc, h, t, h', t', n);
    }
  }

  /** What one advancing access saves the thread itself. */
  lemma AdvanceSaves<V>(c: Config, s: State<V>, k: nat, residue: V)
    requires TryInv(c, s) && CanAdvance(c, s, k)
    ensures var s', n := Step(c, s, Action(k, Go(residue))), |s.threads|;
            Work(s'.threads[k], s'.head, s'.tail, n) + (if s'.head == s.head && s'.tail == s.tail then 0 else 2 * n)
            < Work(s.threads[k], s.head, s.tail, n)
  {
  }

  lemma AdvanceDecreasesMeasure<V>(c: Config, s: State<V>, k: nat, residue: V)
    requires TryInv(c, s) && CanAdvance(c, s, k)
    ensures Measure(Step(c, s, Action(k, Go(residue)))) < Measure(s)
  {
    var s' := Step(c, s, Action(k, Go(residue)));
    AdvanceSaves(c, s, k, residue);
    WorkUpdate(s.threads, k, s'.threads[k], s.head, s.tail, s'.head, s'.tail, |s.threads|);
  }

  /** A run in which every access advances its thread and nobody starts a new operation. */
  ghost predicate Advancing<V>(c: Config, s: State<V>, run: seq<Action<V>>)
    requires Shape(c, s) && Schedule(|s.threads|, run)
    decreases |run|
  {
    run == [] ||
    (run[0].event.Go? && CanAdvance(c, s, run[0].tid) && Advancing(c, Step(c, s, run[0]), run[1..]))
  }

  // ---------------------------------------------------------------- once the calls stop

  ghost predicate NoCalls<V>(run: seq<Action<V>>) { forall k | 0 <= k < |run| :: !run[k].event.Call? }

  /** The accesses of a run that advance their threads; the others are spins, or fail by themselves. */
  ghost function Effective<V>(c: Config, s: State<V>, run: seq<Action<V>>): nat
    requires Shape(c, s) && Schedule(|s.threads|, run)
    decreases |run|
  {
    if run == [] then 0
    else One(run[0].event.Go? && CanAdvance(c, s, run[0].tid)) + Effective(c, Step(c, s, run[0]), run[1..])
  }

  ghost function Failures<V>(run: seq<Action<V>>): nat {
    if run == [] then 0 else One(run[0].event.Spurious?) + Failures(run[1..])
  }

  lemma SpinChangesNothing<V>(c: Config, s: State<V>, k: nat, residue: V)
    requires Shape(c, s) && k < |s.threads| && !CanAdvance(c, s, k)
    ensures Step(c, s, Action(k, Go(residue))) == s
  {
  }

  /** A compare-and-swap that fails by itself costs one access more. */
  lemma FailureCostsOne<V>(c: Config, s: State<V>, k: nat)
    requires TryInv(c, s) && k < |s.threads|
    ensures Measure(Step(c, s, Action(k, Spurious))) <= Measure(s) + 1
  {
    var s' := Step(c, s, Action(k, Spurious));
    assert PcBounded(c, s, s.threads[k]);
    WorkUpdate(s.threads, k, s'.threads[k], s.head, s.tail, s'.head, s'.tail, |s.threads|);
  }

  lemma {:induction false} QuietRunsEnd<V>(c: Config, s: State<V>, run: seq<Action<V>>)
    requires TryInv(c, s) && Schedule(|s.threads|, run) && NoCalls(run)
    ensures TryInv(c, Run(c, s, run))
    ensures Effective(c, s, run) + Measure(Run(c, s, run)) <= Measure(s) + Failures(run)
    decreases |run|
  {
    if run != [] {
      var a := run[0];
      if a.event.Spurious? {
        FailureCostsOne(c, s, a.tid);
      } else if CanAdvance(c, s, a.tid) {
        AdvanceDecreasesMeasure(c, s, a.tid, a.event.residue);
      } else {
        SpinChangesNothing(c, s, a.tid, a.event.residue);
      }
      TryInvStep(c, s, a);
      QuietRunsEnd(c, Step(c, s, a), run[1..]);
    }
  }

  /** ... and advancing for as long as possible completes every operation. */
  lemma {:induction false} DrainFrom<V>(c: Config, s: State<V>) returns (run: seq<Action<V>>)
    requires TryInv(c, s)
    ensures Schedule(|s.threads|, run) && Advancing(c, s, run)
    ensures Quiescent(Run(c, s, run)) && TryInv(c, Run(c, s, run))
    decreases Measure(s)
  {
    if Quiescent(s) {
      run := [];
    } else {
      var k := SomeoneCanAdvance(c, s);
      var a := Action(k, Go(s.elements[0]));
      AdvanceDecreasesMeasure(c, s, k, s.elements[0]);
      TryInvStep(c, s, a);
      var rest := DrainFrom(c, Step(c, s, a));
      run := [a] + rest;
      assert run[1..] == rest && run[0] == a;
    }
  }

  /** No operation is in progress, the STORED slots are exactly those of the tickets in `[tail, head)`, and
      all others are EMPTY. */
  ghost predicate AtRest<V>(c: Config, s: State<V>)
    requires Shape(c, s)
  {
    && Quiescent(s)
    && forall i: nat | i < c.Size() ::
         && (s.states[i] == STORED || s.states[i] == EMPTY)
         && (s.states[i] == STORED <==> exists t: nat :: s.tail <= t < s.head && Slot(c, t) == i)
  }

  lemma QuiescentIsAtRest<V>(c: Config, s: State<V>)
    requires TryInv(c, s) && Quiescent(s)
    ensures AtRest(c, s)
  {
    forall i: nat | i < c.Size()
      ensures s.states[i] == STORED || s.states[i] == EMPTY
      ensures s.states[i] == STORED <==> exists t: nat :: s.tail <= t < s.head && Slot(c, t) == i
    {
      assert SlotBalances(c, s, i);
      forall role ensures Count(c, s.threads, role, i) == 0 { CountNone(c, s.threads, role, i); }
      IssuedWithin(c, s.tail, s.head, i);
    }
  }

  /** Once the calls stop, whatever the threads do from a reachable state, spins and failing swaps included: at
      most `Measure` accesses advance anyone, and one more for each swap that fails by itself; and when no
      thread can advance any more everything is at rest. */
  lemma EveryDrainEndsAtRest<V>(c: Config, s: State<V>, run: seq<Action<V>>, drain: seq<Action<V>>)
    requires Ideal(c) && Initial(c, s) && Schedule(|s.threads|, run) && TryOnly(run)
    requires Schedule(|s.threads|, drain) && NoCalls(drain)
    ensures var r := Run(c, s, run);
            var e := Run(c, r, drain);
            && Effective(c, r, drain) <= Measure(r) + Failures(drain)
            && ((forall k :: !CanAdvance(c, e, k)) ==> AtRest(c, e))
  {
    TryInvRun(c, s, run);
    var r := Run(c, s, run);
    var e := Run(c, r, drain);
    QuietRunsEnd(c, r, drain);
    if forall k :: !CanAdvance(c, e, k) {
      if !Quiescent(e) {
        var k := SomeoneCanAdvance(c, e);
        assert false;
      }
      QuiescentIsAtRest(c, e);
    }
  }

  ghost predicate Drains<V>(c: Config, s: State<V>, drain: seq<Action<V>>)
    requires Shape(c, s)
  {
    Schedule(|s.threads|, drain) && Advancing(c, s, drain) && AtRest(c, Run(c, s, drain))
  }

  /** And such a drain exists from every reachable state. */
  lemma EveryStateDrains<V>(c: Config, s: State<V>, run: seq<Action<V>>)
    requires Ideal(c) && Initial(c, s) && Schedule(|s.threads|, run) && TryOnly(run)
    ensures exists drain :: Drains(c, Run(c, s, run), drain)
  {
    TryInvRun(c, s, run);
    var r := Run(c, s, run);
    var drain := DrainFrom(c, r);
    QuiescentIsAtRest(c, Run(c, r, drain));
    assert Drains(c, r, drain);
  }
}
