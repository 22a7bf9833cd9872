/** The real queue counts in 32-bit unsigned words. Step by step it is the image, modulo 2^32, of the machine
    whose counters never wrap, as long as no thread sits on a loaded counter for too long. */
module Word32 {
  import opened Bits
  import opened IndexMap
  import opened AtomicQueue
  import opened Ledger
  import opened Draining
  import opened Conservation

  ghost function WrapPc<V>(pc: Pc<V>): Pc<V> {
    match pc
    case PushCheck(v, h) => PushCheck(v, h % WORD)
    case PushAdvance(v, h) => PushAdvance(v, h % WORD)
    case PushSlot(v, h) => PushSlot(v, h % WORD)
    case PushWrite(v, h) => PushWrite(v, h % WORD)
    case PushPublish(v, h) => PushPublish(v, h % WORD)
    case PopCheck(t) => PopCheck(t % WORD)
    case PopAdvance(t) => PopAdvance(t % WORD)
    case PopSlot(t) => PopSlot(t % WORD)
    case PopRead(t) => PopRead(t % WORD)
    case PopRelease(t, v) => PopRelease(t % WORD, v)
    case _ => pc
  }

  /** The 32-bit image of a state. */
  ghost function Wrap<V>(s: State<V>): (w: State<V>)
    ensures |w.threads| == |s.threads|
  {
    s.(head := s.head % WORD, tail := s.tail % WORD,
       threads := seq(|s.threads|, k requires 0 <= k < |s.threads| => WrapPc(s.threads[k])))
  }

  ghost function Real(c: Config): Config { c.(wrap := true) }

  /** A size for which the 32-bit arithmetic is right: it divides 2^32 and stays positive as an int. */
  ghost predicate WordSized(c: Config) {
    WfConfig(c) && !c.wrap && WORD % c.Size() == 0 && c.Size() <= WORD / 4
  }

  // ---------------------------------------------------------------- arithmetic

  lemma SignedDistance(a: nat, b: nat)
    requires -(WORD as int) / 2 <= a - b < WORD / 2
    ensures Signed((a % WORD - b % WORD) % WORD) == a - b
  {
    assert (a % WORD - b % WORD) % WORD == (a - b) % WORD by {
      assert a == WORD * (a / WORD) + a % WORD;
      assert b == WORD * (b / WORD) + b % WORD;
    }
  }

  lemma SameWord(a: nat, b: nat)
    requires a % WORD == b % WORD && -(WORD as int) < a - b < WORD
    ensures a == b
  {
  }

  lemma NextWord(a: nat)
    ensures (a % WORD + 1) % WORD == (a + 1) % WORD
  {
  }

  lemma RemainderOfRemainder(a: nat, n: nat, m: nat)
    requires n > 0 && m > 0 && m % n == 0
    ensures (a % m) % n == a % n
  {
    var q, r, d := a / m, a % m, m / n;
    var q2, r2 := r / n, r % n;
    Product(d, q);
    Regroup(n, d, q, q2);
    assert a == n * (d * q + q2) + r2;
    QuotientIs(a, n, d * q + q2, r2);
  }

  lemma Product(a: nat, b: nat)
    ensures a * b >= 0
  {
  }

  lemma Regroup(n: nat, d: nat, q: nat, q2: nat)
    ensures (n * d) * q + n * q2 == n * (d * q + q2)
  {
    assert (n * d) * q == n * (d * q);
  }

  lemma SameSlot(c: Config, t: nat)
    requires WordSized(c)
    ensures Slot(Real(c), t % WORD) == Slot(c, t)
  {
    RemainderOfRemainder(t, c.Size(), WORD);
  }

  lemma Pow2DividesWord(k: nat)
    requires k <= 32
    ensures WORD % Pow2(k) == 0
  {
    Pow2Of32();
    Pow2Adds(k, 32 - k);
    Multiple(WORD, Pow2(k), Pow2(32 - k));
  }

  lemma Multiple(w: nat, m: nat, q: nat)
    requires m > 0 && w == m * q
    ensures w % m == 0
  {
    QuotientIs(w, m, q, 0);
  }

  lemma Pow2Of30And31()
    ensures Pow2(30) == WORD / 4 && Pow2(31) == WORD / 2
  {
    Pow2Of32();
  }

  /** Up to 2^30 the constructor's size is a power of two no larger than that. */
  lemma SmallDynamicSize(requested: nat, bits: nat) returns (k: nat)
    requires requested <= WORD / 4 && bits <= 8
    ensures DynamicSize(requested, bits) == Pow2(k) && k <= 30
  {
    RoundUp32Correct(requested);
    Pow2Of30And31();
    Pow2Monotone(2 * bits, 30);
    var r := RoundUp32(requested);
    if r < Pow2(2 * bits) {
      k := 2 * bits;
    } else {
      assert r <= Pow2(30);
      k :| r == Pow2(k);
      Pow2Below(k, 30);
    }
  }

  /** The sizes of the run-time constructor up to 2^30 are of this kind. */
  lemma DynamicSizeIsWordSized(requested: nat, bits: nat, spsc: bool)
    requires requested <= WORD / 4 && bits <= 8
    ensures WordSized(QueueConfig(DynamicSize(requested, bits), bits, spsc, false))
  {
    var n := DynamicSize(requested, bits);
    DynamicSizeIsSound(requested, bits, 0);
    PlacementIsOneToOne(n, bits);
    var k := SmallDynamicSize(requested, bits);
    Pow2DividesWord(k);
    Pow2Of30And31();
    if k < 30 { Pow2Monotone(k, 30); }
  }

  // ---------------------------------------------------------------- one step

  /** A loaded counter is compared or swapped before the shared one has moved too far for 32 bits. */
  ghost predicate Timely<V>(c: Config, s: State<V>, pc: Pc<V>) {
    match pc
    case PushCheck(_, h) => -(WORD as int) / 2 <= h - s.tail < WORD / 2
    case PushAdvance(_, h) => c.spsc || -(WORD as int) < s.head - h < WORD
    case PopCheck(t) => -(WORD as int) / 2 <= s.head - t < WORD / 2
    case PopAdvance(t) => c.spsc || -(WORD as int) < s.tail - t < WORD
    case _ => true
  }

  lemma WrapGoto<V>(s: State<V>, tid: nat, pc: Pc<V>)
    requires tid < |s.threads|
    ensures Wrap(Goto(s, tid, pc)) == Goto(Wrap(s), tid, WrapPc(pc))
  {
    assert Wrap(Goto(s, tid, pc)).threads == Goto(Wrap(s), tid, WrapPc(pc)).threads;
  }

  lemma SameDistance(c: Config, a: nat, b: nat)
    requires WordSized(c) && -(WORD as int) / 2 <= a - b < WORD / 2
    ensures Distance(Real(c), a % WORD, b % WORD) == Distance(c, a, b) == a - b
    ensures Capacity(Real(c)) == Capacity(c)
  {
    SignedDistance(a, b);
  }

  lemma SimPushCheck<V>(c: Config, s: State<V>, tid: nat, e: Event<V>)
    requires WordSized(c) && Shape(c, s) && tid < |s.threads| && s.threads[tid].PushCheck?
    requires Timely(c, s, s.threads[tid])
    ensures StepTryPush(Real(c), Wrap(s), tid, e) == Wrap(StepTryPush(c, s, tid, e))
  {
    var v, h := s.threads[tid].value, s.threads[tid].head;
    assert Wrap(s).threads[tid] == PushCheck(v, h % WORD);
    SameDistance(c, h, s.tail);
    if !e.Spurious? {
      if Distance(c, h, s.tail) >= Capacity(c) {
        WrapGoto(s, tid, Idle);
      } else {
        WrapGoto(s, tid, PushAdvance(v, h));
      }
    }
  }

  lemma SimPushAdvance<V>(c: Config, s: State<V>, tid: nat, e: Event<V>)
    requires WordSized(c) && Shape(c, s) && tid < |s.threads| && s.threads[tid].PushAdvance?
    requires Timely(c, s, s.threads[tid])
    ensures StepTryPush(Real(c), Wrap(s), tid, e) == Wrap(StepTryPush(c, s, tid, e))
  {
    var v, h := s.threads[tid].value, s.threads[tid].head;
    assert Wrap(s).threads[tid] == PushAdvance(v, h % WORD);
    NextWord(h);
    if !c.spsc && s.head % WORD == h % WORD { SameWord(s.head, h); }
    WrapGoto(s, tid, PushSlot(v, h));
    WrapGoto(s, tid, PushCheck(v, s.head));
  }

  lemma SimTryPush<V>(c: Config, s: State<V>, tid: nat, e: Event<V>)
    requires WordSized(c) && Shape(c, s) && tid < |s.threads| && TakesPush(s.threads[tid])
    requires Timely(c, s, s.threads[tid])
    ensures StepTryPush(Real(c), Wrap(s), tid, e) == Wrap(StepTryPush(c, s, tid, e))
  {
    match s.threads[tid]
    case PushLoad(v) => WrapGoto(s, tid, PushCheck(v, s.head));
    case PushCheck(v, h) => SimPushCheck(c, s, tid, e);
    case PushAdvance(v, h) => SimPushAdvance(c, s, tid, e);
    case PushTake(v) =>
      NextWord(s.head);
      WrapGoto(s, tid, PushSlot(v, s.head));
      WrapGoto(s, tid, PushAdvance(v, s.head));
  }

  lemma SimPopCheck<V>(c: Config, s: State<V>, tid: nat, e: Event<V>)
    requires WordSized(c) && Shape(c, s) && tid < |s.threads| && s.threads[tid].PopCheck?
    requires Timely(c, s, s.threads[tid])
    ensures StepTryPop(Real(c), Wrap(s), tid, e) == Wrap(StepTryPop(c, s, tid, e))
  {
    var t := s.threads[tid].tail;
    assert Wrap(s).threads[tid] == PopCheck(t % WORD);
    SameDistance(c, s.head, t);
    if !e.Spurious? {
      if Distance(c, s.head, t) <= 0 {
        WrapGoto(s, tid, Idle);
      } else {
        WrapGoto(s, tid, PopAdvance(t));
      }
    }
  }

  lemma SimPopAdvance<V>(c: Config, s: State<V>, tid: nat, e: Event<V>)
    requires WordSized(c) && Shape(c, s) && tid < |s.threads| && s.threads[tid].PopAdvance?
    requires Timely(c, s, s.threads[tid])
    ensures StepTryPop(Real(c), Wrap(s), tid, e) == Wrap(StepTryPop(c, s, tid, e))
  {
    var t := s.threads[tid].tail;
    assert Wrap(s).threads[tid] == PopAdvance(t % WORD);
    NextWord(t);
    if !c.spsc && s.tail % WORD == t % WORD { SameWord(s.tail, t); }
    WrapGoto(s, tid, PopSlot(t));
    WrapGoto(s, tid, PopCheck(s.tail));
  }

  lemma SimTryPop<V>(c: Config, s: State<V>, tid: nat, e: Event<V>)
    requires WordSized(c) && Shape(c, s) && tid < |s.threads| && TakesPop(s.threads[tid])
    requires Timely(c, s, s.threads[tid])
    ensures StepTryPop(Real(c), Wrap(s), tid, e) == Wrap(StepTryPop(c, s, tid, e))
  {
    match s.threads[tid]
    case PopLoad => WrapGoto(s, tid, PopCheck(s.tail));
    case PopCheck(t) => SimPopCheck(c, s, tid, e);
    case PopAdvance(t) => SimPopAdvance(c, s, tid, e);
    case PopTake =>
      NextWord(s.tail);
      WrapGoto(s, tid, PopSlot(s.tail));
      WrapGoto(s, tid, PopAdvance(s.tail));
  }

  lemma SimDoPush<V>(c: Config, s: State<V>, tid: nat, e: Event<V>)
    requires WordSized(c) && Shape(c, s) && tid < |s.threads| && DoesPush(s.threads[tid])
    ensures StepDoPush(Real(c), Wrap(s), tid, e) == Wrap(StepDoPush(c, s, tid, e))
  {
    WrapGoto(s, tid, StepDoPush(c, s, tid, e).threads[tid]);
    SameSlot(c, s.threads[tid].head);
  }

  lemma SimDoPop<V>(c: Config, s: State<V>, tid: nat, e: Event<V>)
    requires WordSized(c) && Shape(c, s) && tid < |s.threads| && DoesPop(s.threads[tid])
    ensures StepDoPop(Real(c), Wrap(s), tid, e) == Wrap(StepDoPop(c, s, tid, e))
  {
    WrapGoto(s, tid, StepDoPop(c, s, tid, e).threads[tid]);
    SameSlot(c, s.threads[tid].tail);
  }

  /** One access of the 32-bit machine is the image of one access of the unbounded one. */
  lemma StepSimulates<V>(c: Config, s: State<V>, a: Action<V>)
    requires WordSized(c) && Shape(c, s) && a.tid < |s.threads| && Timely(c, s, s.threads[a.tid])
    ensures Shape(Real(c), Wrap(s)) && Step(Real(c), Wrap(s), a) == Wrap(Step(c, s, a))
  {
    var pc := s.threads[a.tid];
    assert Wrap(s).threads[a.tid] == WrapPc(pc);
    if a.event.Call? {
      WrapGoto(s, a.tid, Begin(a.event.op));
    } else if TakesPush(pc) {
      SimTryPush(c, s, a.tid, a.event);
    } else if DoesPush(pc) {
      SimDoPush(c, s, a.tid, a.event);
    } else if TakesPop(pc) {
      SimTryPop(c, s, a.tid, a.event);
    } else if DoesPop(pc) {
      SimDoPop(c, s, a.tid, a.event);
    }
  }

  /** For a compare-and-swap the bound is sharp: the 32-bit step is the image of the unbounded one unless the
      shared counter has moved by a non-zero multiple of 2^32 since it was loaded. */
  lemma SwapIsFaithfulIff<V>(c: Config, s: State<V>, tid: nat, residue: V)
    requires WordSized(c) && !c.spsc && Shape(c, s) && tid < |s.threads| && s.threads[tid].PushAdvance?
    ensures Shape(Real(c), Wrap(s))
    ensures Step(Real(c), Wrap(s), Action(tid, Go(residue))) == Wrap(Step(c, s, Action(tid, Go(residue))))
            <==> (s.head == s.threads[tid].head || s.head % WORD != s.threads[tid].head % WORD)
  {
    var w, h, v := Wrap(s), s.threads[tid].head, s.threads[tid].value;
    var a := Action(tid, Go(residue));
    assert w.threads[tid] == PushAdvance(v, h % WORD);
    if s.head % WORD == h % WORD && s.head != h {
      assert Step(Real(c), w, a).threads[tid] == PushSlot(v, h % WORD);
      assert Wrap(Step(c, s, a)).threads[tid] == PushCheck(v, s.head % WORD);
    } else {
      NextWord(h);
      WrapGoto(s, tid, Step(c, s, a).threads[tid]);
    }
  }

  /** The same for the swap of the other counter. */
  lemma PopSwapIsFaithfulIff<V>(c: Config, s: State<V>, tid: nat, residue: V)
    requires WordSized(c) && !c.spsc && Shape(c, s) && tid < |s.threads| && s.threads[tid].PopAdvance?
    ensures Shape(Real(c), Wrap(s))
    ensures Step(Real(c), Wrap(s), Action(tid, Go(residue))) == Wrap(Step(c, s, Action(tid, Go(residue))))
            <==> (s.tail == s.threads[tid].tail || s.tail % WORD != s.threads[tid].tail % WORD)
  {
    var w, t := Wrap(s), s.threads[tid].tail;
    var a := Action(tid, Go(residue));
    assert w.threads[tid] == PopAdvance(t % WORD);
    if s.tail % WORD == t % WORD && s.tail != t {
      assert Step(Real(c), w, a).threads[tid] == PopSlot(t % WORD);
      assert Wrap(Step(c, s, a)).threads[tid] == PopCheck(s.tail % WORD);
    } else {
      NextWord(t);
      WrapGoto(s, tid, Step(c, s, a).threads[tid]);
    }
  }

  // ---------------------------------------------------------------- whole runs

  /** Fewer than 2^31 - size operations have been let in since any counter still to be compared was loaded. */
  ghost predicate Fresh<V>(c: Config, s: State<V>) {
    forall k | 0 <= k < |s.threads| ::
      match s.threads[k]
      case PushCheck(_, h) => s.head - h < WORD / 2 - c.Size()
      case PushAdvance(_, h) => s.head - h < WORD / 2 - c.Size()
      case PopCheck(t) => s.tail - t < WORD / 2 - c.Size()
      case PopAdvance(t) => s.tail - t < WORD / 2 - c.Size()
      case _ => true
  }

  ghost predicate StaysFresh<V>(c: Config, s: State<V>, run: seq<Action<V>>)
    requires Shape(c, s) && Schedule(|s.threads|, run)
    decreases |run|
  {
    Fresh(c, s) && (run != [] ==> StaysFresh(c, Step(c, s, run[0]), run[1..]))
  }

  lemma FreshIsTimely<V>(c: Config, s: State<V>, k: nat)
    requires WordSized(c) && BoundsInv(c, s) && Fresh(c, s) && k < |s.threads|
    ensures Timely(c, s, s.threads[k])
  {
    assert PcBounded(c, s, s.threads[k]);
  }

  /** Every comparison and swap in the run is timely; any mixture of operations. */
  ghost predicate TimelyRun<V>(c: Config, s: State<V>, run: seq<Action<V>>)
    requires Shape(c, s) && Schedule(|s.threads|, run)
    decreases |run|
  {
    run == [] || (Timely(c, s, s.threads[run[0].tid]) && TimelyRun(c, Step(c, s, run[0]), run[1..]))
  }

  lemma {:induction false} RunSimulates<V>(c: Config, s: State<V>, run: seq<Action<V>>)
    requires WordSized(c) && Shape(c, s) && Schedule(|s.threads|, run) && TimelyRun(c, s, run)
    ensures Shape(Real(c), Wrap(s)) && Run(Real(c), Wrap(s), run) == Wrap(Run(c, s, run))
    decreases |run|
  {
    if run != [] {
      StepSimulates(c, s, run[0]);
      RunSimulates(c, Step(c, s, run[0]), run[1..]);
    }
  }

  /** Without the blocking operations freshness is enough. */
  lemma {:induction false} FreshRunIsTimely<V>(c: Config, s: State<V>, run: seq<Action<V>>)
    requires WordSized(c) && BoundsInv(c, s) && Schedule(|s.threads|, run) && TryOnly(run) && StaysFresh(c, s, run)
    ensures TimelyRun(c, s, run)
    decreases |run|
  {
    if run != [] {
      assert TryEvent(run[0].event);
      FreshIsTimely(c, s, run[0].tid);
      BoundsStep(c, s, run[0]);
      FreshRunIsTimely(c, Step(c, s, run[0]), run[1..]);
    }
  }

  lemma WrapInitial<V>(c: Config, s: State<V>)
    requires Initial(c, s)
    ensures Wrap(s) == s && Shape(Real(c), s)
  {
    assert Wrap(s).threads == s.threads;
  }

  /** Every fresh run of the 32-bit queue is the image of the same run with unbounded counters. */
  lemma RealRunIsIdealRun<V>(c: Config, s: State<V>, run: seq<Action<V>>)
    requires WordSized(c) && Ideal(c) && Initial(c, s) && Schedule(|s.threads|, run) && TryOnly(run)
    requires StaysFresh(c, s, run)
    ensures Shape(Real(c), s) && Run(Real(c), s, run) == Wrap(Run(c, s, run))
  {
    WrapInitial(c, s);
    FreshRunIsTimely(c, s, run);
    RunSimulates(c, s, run);
  }

  lemma WrapKeepsRoles<V>(c: Config, s: State<V>, k: nat, i: nat)
    requires WordSized(c) && Shape(c, s) && k < |s.threads| && i < c.Size()
    ensures forall role :: Plays(Real(c), Wrap(s).threads[k], role, i) == Plays(c, s.threads[k], role, i)
    ensures Shape(Real(c), Wrap(s)) && CanAdvance(Real(c), Wrap(s), k) == CanAdvance(c, s, k)
  {
    var pc := s.threads[k];
    if DoesPush(pc) { SameSlot(c, pc.head); }
    if DoesPop(pc) { SameSlot(c, pc.tail); }
  }

  lemma RealOwnersDiffer<V>(c: Config, q: State<V>, i: nat, j: nat, k: nat)
    requires WordSized(c) && LedgerInv(c, q) && i < c.Size() && j < k < |q.threads|
    ensures !(Owns(Real(c), Wrap(q).threads[j], i) && Owns(Real(c), Wrap(q).threads[k], i))
  {
    WrapKeepsRoles(c, q, j, i);
    WrapKeepsRoles(c, q, k, i);
    OwnersDiffer(c, q, j, k, i);
  }

  lemma RealNotDeadlocked<V>(c: Config, q: State<V>)
    requires WordSized(c) && TryInv(c, q)
    ensures Shape(Real(c), Wrap(q)) && (Quiescent(Wrap(q)) || exists k :: CanAdvance(Real(c), Wrap(q), k))
  {
    if !Quiescent(q) {
      var k := SomeoneCanAdvance(c, q);
      WrapKeepsRoles(c, q, k, 0);
    }
  }

  /** The number of `x` in a state's books, wherever it is. */
  ghost function Everywhere<V(!new)>(c: Config, s: State<V>, x: V): nat
    requires Shape(c, s)
  {
    Occurs(s.trace.refused, x) + Occurs(s.trace.taken, x) + CountStored(s.states, s.elements, x)
    + CountUntaken(s.threads, x) + CountInFlight(c, s.threads, s.elements, x)
  }

  lemma RealIsConserved<V(!new)>(c: Config, q: State<V>, x: V)
    requires WordSized(c) && Shape(c, q) && Occurs(q.trace.handed, x) == Everywhere(c, q, x)
    ensures Shape(Real(c), Wrap(q)) && Occurs(Wrap(q).trace.handed, x) == Everywhere(Real(c), Wrap(q), x)
  {
    WrapKeepsCounts(c, q.threads, Wrap(q).threads, q.elements, x);
  }

  /** What a good state of the 32-bit queue is: no two threads own one element, no more than `size` tickets
      are outstanding, values are conserved, and it is not deadlocked. */
  ghost predicate Safe<V(!new)>(c: Config, r: State<V>, x: V)
    requires Shape(c, r)
  {
    && (forall i: nat, j: nat, k: nat | i < c.Size() && j < k < |r.threads| ::
          !(Owns(c, r.threads[j], i) && Owns(c, r.threads[k], i)))
    && (r.head - r.tail) % WORD <= c.Size()
    && Occurs(r.trace.handed, x) == Everywhere(c, r, x)
    && (Quiescent(r) || exists k :: CanAdvance(c, r, k))
  }

  lemma ImageIsSafe<V(!new)>(c: Config, q: State<V>, x: V)
    requires WordSized(c) && TryInv(c, q) && Occurs(q.trace.handed, x) == Everywhere(c, q, x)
    ensures Shape(Real(c), Wrap(q)) && Safe(Real(c), Wrap(q), x)
  {
    forall i: nat, j: nat, k: nat | i < c.Size() && j < k < |q.threads|
      ensures !(Owns(Real(c), Wrap(q).threads[j], i) && Owns(Real(c), Wrap(q).threads[k], i)) {
      RealOwnersDiffer(c, q, i, j, k);
    }
    SignedDistance(q.head, q.tail);
    RealIsConserved(c, q, x);
    RealNotDeadlocked(c, q);
  }

  /** In every fresh run the 32-bit queue is safe. */
  lemma RealQueueIsSafe<V(!new)>(c: Config, s: State<V>, run: seq<Action<V>>, x: V)
    requires WordSized(c) && Ideal(c) && Initial(c, s) && Schedule(|s.threads|, run) && TryOnly(run)
    requires StaysFresh(c, s, run)
    ensures Shape(Real(c), s) && Safe(Real(c), Run(Real(c), s, run), x)
  {
    RealRunIsIdealRun(c, s, run);
    TryInvRun(c, s, run);
    ValuesAreConserved(c, s, run, x);
    ImageIsSafe(c, Run(c, s, run), x);
  }

  /** With the blocking operations mixed in, every timely run of the 32-bit queue still keeps elements
      exclusive and loses, invents and duplicates nothing. */
  lemma RealQueueConserves<V(!new)>(c: Config, s: State<V>, run: seq<Action<V>>, x: V)
    requires WordSized(c) && Ideal(c) && Initial(c, s) && Schedule(|s.threads|, run) && TimelyRun(c, s, run)
    ensures Shape(Real(c), s)
    ensures var r := Run(Real(c), s, run);
            && (forall i: nat, j: nat, k: nat | i < c.Size() && j < k < |r.threads| ::
                  !(Owns(Real(c), r.threads[j], i) && Owns(Real(c), r.threads[k], i)))
            && Occurs(r.trace.handed, x) == Everywhere(Real(c), r, x)
  {
    var q := Run(c, s, run);
    WrapInitial(c, s);
    RunSimulates(c, s, run);
    LedgerInit(c, s);
    LedgerRun(c, s, run);
    ValuesAreConserved(c, s, run, x);
    RealIsConserved(c, q, x);
    forall i: nat, j: nat, k: nat | i < c.Size() && j < k < |q.threads|
      ensures !(Owns(Real(c), Wrap(q).threads[j], i) && Owns(Real(c), Wrap(q).threads[k], i)) {
      RealOwnersDiffer(c, q, i, j, k);
    }
  }

  lemma {:induction false} WrapKeepsCounts<V(!new)>(c: Config, ts: seq<Pc<V>>, ws: seq<Pc<V>>, el: seq<V>, x: V)
    requires WordSized(c) && |el| == c.Size() && |ws| == |ts|
    requires forall k | 0 <= k < |ts| :: ws[k] == WrapPc(ts[k])
    ensures CountUntaken(ws, x) == CountUntaken(ts, x)
    ensures CountInFlight(Real(c), ws, el, x) == CountInFlight(c, ts, el, x)
  {
    if ts != [] {
      if ts[0].PopRead? { SameSlot(c, ts[0].tail); }
      WrapKeepsCounts(c, ts[1..], ws[1..], el, x);
    }
  }

  // ---------------------------------------------------------------- the size limit

  /** A queue of 2^31 slots, which the constructor builds for any request above 2^30, refuses every try_push:
      its capacity is negative as an int. Below that size an empty queue accepts. */
  lemma CapacityLimit<V>(c: Config, s: State<V>, tid: nat, residue: V)
    requires WfConfig(c) && c.wrap && c.Size() <= WORD / 2 && Shape(c, s)
    requires tid < |s.threads| && s.threads[tid].PushCheck?
    requires s.threads[tid].head < WORD && s.tail < WORD
    ensures c.Size() == WORD / 2 ==> Step(c, s, Action(tid, Go(residue))).threads[tid] == Idle
    ensures c.Size() < WORD / 2 && s.threads[tid].head == s.tail ==>
              Step(c, s, Action(tid, Go(residue))).threads[tid].PushAdvance?
  {
  }

  lemma SizeAboveLimit(requested: nat, bits: nat)
    requires requested < WORD && bits <= 8
    ensures DynamicSize(requested, bits) == WORD / 2 <==> WORD / 4 < requested <= WORD / 2
  {
    RoundUp32Correct(requested);
    DynamicSizeIsSound(requested, bits, 0);
    Pow2Of32();
    assert Pow2(32) == 2 * Pow2(31) == 4 * Pow2(30);
    Pow2Monotone(2 * bits, 30);
    if 1 <= requested <= WORD / 4 {
      assert requested <= Pow2(30);
    } else if WORD / 4 < requested <= WORD / 2 {
      var k: nat :| RoundUp32(requested) == Pow2(k);
      if k <= 30 && k < 30 { Pow2Monotone(k, 30); }
      if k > 31 { Pow2Monotone(31, k); }
      assert k == 31;
    }
  }
}
