/** TicketSpinlock taken and released through LockGuard, as a machine of interleaved atomic accesses by any
    number of threads; with unbounded counters (`wrap == false`) and with the real 32-bit ones. */
module TicketLock {
  import opened Bits
  import Ledger

  datatype Pc =
    | Outside                             // not in a guard; the next access is fetch_add on ticket_
    | Loading(ticket: nat)                // about to load next_
    | Pausing(ticket: nat, position: nat) // backing off: `position` pauses left
    | Inside(ticket: nat)                 // in the critical section; the next access stores next_

  /** `arrived` and `entered` record the threads in the order they drew tickets and got in. */
  datatype Lock = Lock(ticket: nat, next: nat, threads: seq<Pc>, arrived: seq<nat>, entered: seq<nat>)

  function Add(wrap: bool, a: nat): nat { if wrap then (a + 1) % WORD else a + 1 }

  /** Unsigned subtraction; without wrapping it is only meaningful when `a >= b`. */
  function Minus(wrap: bool, a: nat, b: nat): nat {
    if wrap then (a - b) % WORD else if a >= b then a - b else 0
  }

  ghost function Step(wrap: bool, s: Lock, tid: nat): (s': Lock)
    requires tid < |s.threads|
    ensures |s'.threads| == |s.threads|
  {
    match s.threads[tid]
    case Outside =>
      s.(threads := s.threads[tid := Loading(s.ticket)], ticket := Add(wrap, s.ticket), arrived := s.arrived + [tid])
    case Loading(k) =>
      if Minus(wrap, k, s.next) == 0 then
        s.(threads := s.threads[tid := Inside(k)], entered := s.entered + [tid])
      else s.(threads := s.threads[tid := Pausing(k, Minus(wrap, k, s.next))])
    case Pausing(k, p) =>
      if Minus(wrap, p, 1) != 0 then s.(threads := s.threads[tid := Pausing(k, Minus(wrap, p, 1))])
      else s.(threads := s.threads[tid := Loading(k)])
    case Inside(k) =>
      s.(threads := s.threads[tid := Outside], next := Add(wrap, k))
  }

  ghost predicate Schedule(n: nat, run: seq<nat>) {
    forall i | 0 <= i < |run| :: run[i] < n
  }

  ghost function Run(wrap: bool, s: Lock, run: seq<nat>): (s': Lock)
    requires Schedule(|s.threads|, run)
    ensures |s'.threads| == |s.threads|
    decreases |run|
  {
    if run == [] then s else Run(wrap, Step(wrap, s, run[0]), run[1..])
  }

  ghost predicate Initial(s: Lock) {
    && s.ticket == s.next == 0 && s.arrived == s.entered == []
    && forall j | 0 <= j < |s.threads| :: s.threads[j] == Outside
  }

  // ---------------------------------------------------------------- the invariant of the unbounded lock

  ghost predicate Holds(pc: Pc, k: nat) { !pc.Outside? && pc.ticket == k }

  ghost function Holders(ts: seq<Pc>): nat {
    if ts == [] then 0 else Ledger.One(!ts[0].Outside?) + Holders(ts[1..])
  }

  lemma {:induction false} HoldersUpdate(ts: seq<Pc>, j: nat, pc: Pc)
    requires j < |ts|
    ensures Holders(ts[j := pc]) + Ledger.One(!ts[j].Outside?) == Holders(ts) + Ledger.One(!pc.Outside?)
  {
    if j == 0 {
      assert ts[0 := pc][1..] == ts[1..];
    } else {
      assert ts[j := pc][1..] == ts[1..][j - 1 := pc];
      HoldersUpdate(ts[1..], j - 1, pc);
    }
  }

  lemma {:induction false} HoldersAtMost(ts: seq<Pc>)
    ensures Holders(ts) <= |ts|
    ensures (forall j | 0 <= j < |ts| :: ts[j].Outside?) ==> Holders(ts) == 0
  {
    if ts != [] { HoldersAtMost(ts[1..]); }
  }

  ghost predicate SomeoneInside(s: Lock) { exists j :: 0 <= j < |s.threads| && s.threads[j].Inside? }

  ghost predicate TicketsHeld(s: Lock) {
    && |s.arrived| == s.ticket && s.next <= s.ticket
    && (forall j | 0 <= j < |s.threads| && !s.threads[j].Outside? ::
          s.next <= s.threads[j].ticket < s.ticket && s.arrived[s.threads[j].ticket] == j)
    && (forall k | s.next <= k < s.ticket :: s.arrived[k] < |s.threads| && Holds(s.threads[s.arrived[k]], k))
  }

  ghost predicate PlacesRight(s: Lock) {
    forall j | 0 <= j < |s.threads| ::
      match s.threads[j]
      case Inside(k) => k == s.next
      case Pausing(k, p) => p > 0
      case _ => true
  }

  /** The thread holding ticket `next`, if any, is the only one that can be inside. */
  ghost predicate EntryOrder(s: Lock) {
    && s.next <= |s.entered| <= s.next + 1
    && s.entered <= s.arrived
    && (|s.entered| == s.next + 1 <==> SomeoneInside(s))
  }

  ghost predicate LockInv(s: Lock) {
    && TicketsHeld(s) && PlacesRight(s) && EntryOrder(s)
    && Holders(s.threads) == s.ticket - s.next
  }

  lemma InitialLock(s: Lock)
    requires Initial(s)
    ensures LockInv(s)
  {
    HoldersAtMost(s.threads);
  }

  lemma TwoInsideAreOne(s: Lock, i: nat, j: nat)
    requires TicketsHeld(s) && PlacesRight(s) && i < |s.threads| && j < |s.threads|
    requires s.threads[i].Inside? && s.threads[j].Inside?
    ensures i == j
  {
  }

  lemma LockStep(s: Lock, tid: nat)
    requires LockInv(s) && tid < |s.threads|
    ensures LockInv(Step(false, s, tid))
  {
    HoldersUpdate(s.threads, tid, Step(false, s, tid).threads[tid]);
    TicketsStep(s, tid);
    EntryStep(s, tid);
  }

  lemma TicketsStep(s: Lock, tid: nat)
    requires LockInv(s) && tid < |s.threads|
    ensures TicketsHeld(Step(false, s, tid)) && PlacesRight(Step(false, s, tid))
  {
    match s.threads[tid]
    case Outside => ArrivalKeepsTickets(s, tid);
    case Inside(k) => LeavingKeepsTickets(s, tid);
    case Loading(k) => LoadingKeepsTickets(s, tid);
    case Pausing(k, p) => PausingKeepsTickets(s, tid);
  }

  lemma ArrivalKeepsTickets(s: Lock, tid: nat)
    requires LockInv(s) && tid < |s.threads| && s.threads[tid].Outside?
    ensures TicketsHeld(Step(false, s, tid)) && PlacesRight(Step(false, s, tid))
  {
  }

  lemma LeavingKeepsTickets(s: Lock, tid: nat)
    requires LockInv(s) && tid < |s.threads| && s.threads[tid].Inside?
    ensures TicketsHeld(Step(false, s, tid)) && PlacesRight(Step(false, s, tid))
  {
    NobodyElseInside(s, tid);
  }

  lemma LoadingKeepsTickets(s: Lock, tid: nat)
    requires LockInv(s) && tid < |s.threads| && s.threads[tid].Loading?
    ensures TicketsHeld(Step(false, s, tid)) && PlacesRight(Step(false, s, tid))
  {
  }

  lemma PausingKeepsTickets(s: Lock, tid: nat)
    requires LockInv(s) && tid < |s.threads| && s.threads[tid].Pausing?
    ensures TicketsHeld(Step(false, s, tid)) && PlacesRight(Step(false, s, tid))
  {
  }

  lemma EntryStep(s: Lock, tid: nat)
    requires LockInv(s) && tid < |s.threads|
    ensures EntryOrder(Step(false, s, tid))
  {
    var s' := Step(false, s, tid);
    match s.threads[tid]
    case Outside => StaysOutside(s, s', tid);
    case Loading(k) =>
      if k == s.next {
        NobodyElseInside(s, tid);
        assert s'.threads[tid].Inside?;
      } else {
        StaysOutside(s, s', tid);
      }
    case Pausing(k, p) => StaysOutside(s, s', tid);
    case Inside(k) => NobodyElseInside(s, tid);
  }

  /** Whoever holds ticket `next` keeps all others out. */
  lemma NobodyElseInside(s: Lock, tid: nat)
    requires TicketsHeld(s) && PlacesRight(s) && tid < |s.threads| && Holds(s.threads[tid], s.next)
    ensures forall j | 0 <= j < |s.threads| && j != tid :: !s.threads[j].Inside?
  {
  }

  lemma StaysOutside(s: Lock, s': Lock, tid: nat)
    requires tid < |s.threads| == |s'.threads| && s'.threads == s.threads[tid := s'.threads[tid]]
    requires !s.threads[tid].Inside? && !s'.threads[tid].Inside?
    ensures SomeoneInside(s') == SomeoneInside(s)
  {
    if SomeoneInside(s) {
      var j :| 0 <= j < |s.threads| && s.threads[j].Inside?;
      assert s'.threads[j].Inside?;
    }
  }

  lemma {:induction false} LockRun(s: Lock, run: seq<nat>)
    requires LockInv(s) && Schedule(|s.threads|, run)
    ensures LockInv(Run(false, s, run))
    decreases |run|
  {
    if run != [] {
      LockStep(s, run[0]);
      LockRun(Step(false, s, run[0]), run[1..]);
    }
  }

  // ---------------------------------------------------------------- 32-bit counters

  ghost function WrapPc(pc: Pc): Pc {
    match pc
    case Outside => Outside
    case Loading(k) => Loading(k % WORD)
    case Pausing(k, p) => Pausing(k % WORD, p)
    case Inside(k) => Inside(k % WORD)
  }

  ghost function Wrap(s: Lock): Lock {
    s.(ticket := s.ticket % WORD, next := s.next % WORD,
       threads := seq(|s.threads|, j requires 0 <= j < |s.threads| => WrapPc(s.threads[j])))
  }

  /** Pauses never exceed what a 32-bit position can hold. */
  ghost predicate ShortPauses(s: Lock) {
    forall j | 0 <= j < |s.threads| && s.threads[j].Pausing? :: s.threads[j].position < WORD
  }

  lemma PositionFits(k: nat, next: nat)
    requires next <= k < next + WORD
    ensures (k % WORD - next % WORD) % WORD == k - next
  {
  }

  lemma WrapThread(s: Lock, tid: nat, pc: Pc)
    requires tid < |s.threads|
    ensures Wrap(s.(threads := s.threads[tid := pc])).threads == Wrap(s).threads[tid := WrapPc(pc)]
  {
  }

  /** What thread `tid`'s next access needs for 32 bits to be enough. */
  ghost predicate Fits(s: Lock, tid: nat) {
    && tid < |s.threads|
    && match s.threads[tid]
       case Loading(k) => s.next <= k < s.next + WORD
       case Pausing(_, p) => 0 < p < WORD
       case _ => true
  }

  lemma WrapFittingStep(s: Lock, tid: nat)
    requires Fits(s, tid)
    ensures Step(true, Wrap(s), tid) == Wrap(Step(false, s, tid))
  {
    assert Wrap(s).threads[tid] == WrapPc(s.threads[tid]);
    match s.threads[tid]
    case Outside => WrapThread(s, tid, Loading(s.ticket));
    case Loading(k) =>
      PositionFits(k, s.next);
      WrapThread(s, tid, if k == s.next then Inside(k) else Pausing(k, k - s.next));
    case Pausing(k, p) =>
      assert Minus(true, p, 1) == p - 1;
      WrapThread(s, tid, if p == 1 then Loading(k) else Pausing(k, p - 1));
    case Inside(k) => WrapThread(s, tid, Outside);
  }

  lemma WrapStep(s: Lock, tid: nat)
    requires LockInv(s) && ShortPauses(s) && tid < |s.threads| <= WORD
    ensures Step(true, Wrap(s), tid) == Wrap(Step(false, s, tid))
    ensures ShortPauses(Step(false, s, tid))
  {
    HoldersAtMost(s.threads);
    WrapFittingStep(s, tid);
  }

  lemma {:induction false} WrapRun(s: Lock, run: seq<nat>)
    requires LockInv(s) && ShortPauses(s) && |s.threads| <= WORD && Schedule(|s.threads|, run)
    ensures |Wrap(s).threads| == |s.threads| && Run(true, Wrap(s), run) == Wrap(Run(false, s, run))
    ensures ShortPauses(Run(false, s, run))
    decreases |run|
  {
    if run != [] {
      WrapStep(s, run[0]);
      LockStep(s, run[0]);
      WrapRun(Step(false, s, run[0]), run[1..]);
    }
  }

  lemma RealRun(s: Lock, run: seq<nat>)
    requires Initial(s) && |s.threads| <= WORD && Schedule(|s.threads|, run)
    ensures var q := Run(false, s, run);
            LockInv(q) && ShortPauses(q) && Run(true, s, run) == Wrap(q)
  {
    InitialLock(s);
    LockRun(s, run);
    assert Wrap(s) == s by { assert Wrap(s).threads == s.threads; }
    WrapRun(s, run);
  }

  // ---------------------------------------------------------------- what the real lock guarantees

  ghost predicate OneInside(s: Lock) {
    forall i, j | 0 <= i < j < |s.threads| :: !(s.threads[i].Inside? && s.threads[j].Inside?)
  }

  /** With up to 2^32 threads, every run of the 32-bit lock lets threads in one at a time and in the order in
      which they drew their tickets. */
  lemma ExclusiveAndFair(s: Lock, run: seq<nat>)
    requires Initial(s) && |s.threads| <= WORD && Schedule(|s.threads|, run)
    ensures OneInside(Run(true, s, run))
    ensures Run(true, s, run).entered <= Run(true, s, run).arrived
  {
    RealRun(s, run);
    var q := Run(false, s, run);
    forall i, j | 0 <= i < j < |q.threads| ensures !(Wrap(q).threads[i].Inside? && Wrap(q).threads[j].Inside?) {
      if q.threads[i].Inside? && q.threads[j].Inside? { TwoInsideAreOne(q, i, j); }
    }
  }

  // One thread more and exclusion is lost: 2^32 + 1 arrivals, of which the first and the last get in.

  ghost function Arrivals(n: nat): (run: seq<nat>)
    ensures |run| == n && forall i | 0 <= i < n :: run[i] == i
  {
    seq(n, i => i)
  }

  lemma {:induction false} RunAppend(wrap: bool, s: Lock, run: seq<nat>, tid: nat)
    requires Schedule(|s.threads|, run) && tid < |s.threads|
    ensures Schedule(|s.threads|, run + [tid])
    ensures Run(wrap, s, run + [tid]) == Step(wrap, Run(wrap, s, run), tid)
    decreases |run|
  {
    if run == [] {
      assert run + [tid] == [tid] && [tid][1..] == [];
    } else {
      assert (run + [tid])[1..] == run[1..] + [tid];
      RunAppend(wrap, Step(wrap, s, run[0]), run[1..], tid);
    }
  }

  ghost predicate AllArrived(r: Lock, n: nat) {
    && n <= |r.threads| && r.ticket == n % WORD && r.next == 0
    && (forall j | 0 <= j < n :: r.threads[j] == Loading(j % WORD))
    && (forall j | n <= j < |r.threads| :: r.threads[j] == Outside)
  }

  lemma OneMoreArrived(r: Lock, n: nat)
    requires AllArrived(r, n) && n < |r.threads|
    ensures AllArrived(Step(true, r, n), n + 1)
  {
  }

  lemma {:induction false} AfterArrivals(s: Lock, n: nat)
    requires Initial(s) && n <= |s.threads|
    ensures Schedule(|s.threads|, Arrivals(n)) && AllArrived(Run(true, s, Arrivals(n)), n)
  {
    if n > 0 {
      AfterArrivals(s, n - 1);
      OneMoreArrived(Run(true, s, Arrivals(n - 1)), n - 1);
      assert Arrivals(n) == Arrivals(n - 1) + [n - 1];
      RunAppend(true, s, Arrivals(n - 1), n - 1);
    }
  }

  /** A thread whose ticket is being served goes in. */
  lemma GoesIn(r: Lock, tid: nat)
    requires tid < |r.threads| && r.threads[tid] == Loading(0) && r.next == 0
    ensures var e := Step(true, r, tid);
            e.next == 0 && e.threads == r.threads[tid := Inside(0)]
  {
  }

  lemma TwoInside(s: Lock) returns (run: seq<nat>)
    requires Initial(s) && |s.threads| > WORD
    ensures Schedule(|s.threads|, run) && !OneInside(Run(true, s, run))
  {
    var arrivals := Arrivals(WORD + 1);
    AfterArrivals(s, WORD + 1);
    var r := Run(true, s, arrivals);
    assert r.threads[0] == Loading(0) && r.threads[WORD] == Loading(0);
    GoesIn(r, 0);
    GoesIn(Step(true, r, 0), WORD);
    RunAppend(true, s, arrivals, 0);
    RunAppend(true, s, arrivals + [0], WORD);
    run := arrivals + [0] + [WORD];
    var e := Run(true, s, run);
    assert e.threads == r.threads[0 := Inside(0)][WORD := Inside(0)];
    assert e.threads[0].Inside? && e.threads[WORD].Inside?;
  }

  /** The lock excludes in every run exactly when there are at most 2^32 threads. */
  lemma ExclusiveIffThreadsFit(s: Lock)
    requires Initial(s)
    ensures (forall run | Schedule(|s.threads|, run) :: OneInside(Run(true, s, run))) <==> |s.threads| <= WORD
  {
    if |s.threads| <= WORD {
      forall run | Schedule(|s.threads|, run) ensures OneInside(Run(true, s, run)) {
        ExclusiveAndFair(s, run);
      }
    } else {
      var run := TwoInside(s);
    }
  }

  // ---------------------------------------------------------------- progress

  ghost function Repeat(tid: nat, n: nat): (run: seq<nat>)
    ensures |run| == n && forall i | 0 <= i < n :: run[i] == tid
  {
    seq(n, i => tid)
  }

  /** The back-off loop comes to an end after exactly `position` pauses, whatever the wrap-around: `position`
      is never zero when it starts. */
  lemma {:induction false} BackOffEnds(wrap: bool, s: Lock, tid: nat)
    requires tid < |s.threads| && s.threads[tid].Pausing? && 0 < s.threads[tid].position < WORD
    ensures Schedule(|s.threads|, Repeat(tid, s.threads[tid].position))
    ensures Run(wrap, s, Repeat(tid, s.threads[tid].position))
            == s.(threads := s.threads[tid := Loading(s.threads[tid].ticket)])
    decreases s.threads[tid].position
  {
    var k, p := s.threads[tid].ticket, s.threads[tid].position;
    var s' := Step(wrap, s, tid);
    assert Repeat(tid, p)[1..] == Repeat(tid, p - 1);
    if p > 1 {
      assert s'.threads[tid] == Pausing(k, p - 1);
      BackOffEnds(wrap, s', tid);
      assert s'.threads[tid := Loading(k)] == s.threads[tid := Loading(k)];
    }
  }

  /** A thread whose turn it is, running alone, gets in and out again. */
  ghost predicate GoesThrough(s: Lock, tid: nat, n: nat) {
    && tid < |s.threads|
    && Schedule(|s.threads|, Repeat(tid, n))
    && Run(true, s, Repeat(tid, n)).next == (s.next + 1) % WORD
    && Run(true, s, Repeat(tid, n)).threads[tid] == Outside
  }

  lemma InsideGoesThrough(s: Lock, tid: nat)
    requires tid < |s.threads| && s.threads[tid] == Inside(s.next)
    ensures GoesThrough(s, tid, 1)
  {
    assert Repeat(tid, 1)[1..] == [];
  }

  lemma LoadingGoesThrough(s: Lock, tid: nat)
    requires tid < |s.threads| && s.threads[tid] == Loading(s.next)
    ensures GoesThrough(s, tid, 2)
  {
    InsideGoesThrough(Step(true, s, tid), tid);
    assert Repeat(tid, 2)[1..] == Repeat(tid, 1);
  }

  lemma {:induction false} RunConcat(wrap: bool, s: Lock, a: seq<nat>, b: seq<nat>)
    requires Schedule(|s.threads|, a) && Schedule(|s.threads|, b)
    ensures Schedule(|s.threads|, a + b) && Run(wrap, s, a + b) == Run(wrap, Run(wrap, s, a), b)
    decreases |a|
  {
    if a == [] {
      assert a + b == b;
    } else {
      assert (a + b)[1..] == a[1..] + b;
      RunConcat(wrap, Step(wrap, s, a[0]), a[1..], b);
    }
  }

  lemma PausingGoesThrough(s: Lock, tid: nat)
    requires tid < |s.threads| && s.threads[tid].Pausing? && s.threads[tid].ticket == s.next
    requires 0 < s.threads[tid].position < WORD
    ensures GoesThrough(s, tid, s.threads[tid].position + 2)
  {
    var p := s.threads[tid].position;
    BackOffEnds(true, s, tid);
    LoadingGoesThrough(Run(true, s, Repeat(tid, p)), tid);
    RunConcat(true, s, Repeat(tid, p), Repeat(tid, 2));
    assert Repeat(tid, p) + Repeat(tid, 2) == Repeat(tid, p + 2);
  }

  /** While any thread is waiting or inside, one particular thread holds ticket `next_`, and running that one
      alone takes it through the critical section within 2^32 + 1 accesses: the lock is never deadlocked. */
  lemma SomeoneGoesThrough(s: Lock, run: seq<nat>)
    requires Initial(s) && |s.threads| <= WORD && Schedule(|s.threads|, run)
    requires exists j :: 0 <= j < |s.threads| && !Run(true, s, run).threads[j].Outside?
    ensures exists j: nat, n: nat :: n <= WORD + 1 && GoesThrough(Run(true, s, run), j, n)
  {
    RealRun(s, run);
    var q, r := Run(false, s, run), Run(true, s, run);
    var i :| 0 <= i < |s.threads| && !r.threads[i].Outside?;
    assert !q.threads[i].Outside?;
    var j := q.arrived[q.next];
    assert Holds(q.threads[j], q.next);
    assert r.threads[j] == WrapPc(q.threads[j]) && r.next == q.next % WORD;
    match q.threads[j]
    case Loading(k) => LoadingGoesThrough(r, j);
    case Inside(k) => InsideGoesThrough(r, j);
    case Pausing(k, p) => PausingGoesThrough(r, j);
  }

  // ---------------------------------------------------------------- unlock() without a ticket

  /** `unlock()` calls `unlock(next_ + 1)`, which stores `next_ + 2`. */
  ghost function BareUnlock(s: Lock, tid: nat): (s': Lock)
    requires tid < |s.threads|
    ensures |s'.threads| == |s.threads|
  {
    s.(next := Add(true, Add(true, s.next)), threads := s.threads[tid := Outside])
  }

  /** How far a 32-bit number is past `base`. */
  ghost function Past(base: nat, x: nat): nat { (x - base) % WORD }

  /** Thread `i` holds ticket `base`; `next_` and all other tickets held are past it, and fewer than 2^32
      tickets have been drawn from it on. */
  ghost predicate Skipped(s: Lock, i: nat, base: nat, drawn: nat) {
    && i < |s.threads| && base < WORD && 1 <= drawn < WORD
    && s.ticket < WORD && Past(base, s.ticket) == drawn
    && s.next < WORD && 1 <= Past(base, s.next) <= drawn
    && !s.threads[i].Outside? && !s.threads[i].Inside? && s.threads[i].ticket == base
    && forall j | 0 <= j < |s.threads| && j != i && !s.threads[j].Outside? ::
         s.threads[j].ticket < WORD && 1 <= Past(base, s.threads[j].ticket) < drawn
  }

  lemma PastNext(base: nat, x: nat)
    requires base < WORD && x < WORD && Past(base, x) < WORD - 1
    ensures Past(base, (x + 1) % WORD) == Past(base, x) + 1
  {
  }

  lemma SkippedStep(s: Lock, i: nat, base: nat, drawn: nat, tid: nat)
    requires Skipped(s, i, base, drawn) && drawn + 1 < WORD && tid < |s.threads|
    ensures Skipped(Step(true, s, tid), i, base, if s.threads[tid].Outside? then drawn + 1 else drawn)
  {
    var s' := Step(true, s, tid);
    match s.threads[tid]
    case Outside => PastNext(base, s.ticket);
    case Inside(k) => PastNext(base, k);
    case _ =>
  }

  lemma {:induction false} SkippedRun(s: Lock, i: nat, base: nat, drawn: nat, run: seq<nat>)
    requires Skipped(s, i, base, drawn) && drawn + |run| < WORD && Schedule(|s.threads|, run)
    ensures !Run(true, s, run).threads[i].Outside? && !Run(true, s, run).threads[i].Inside?
    decreases |run|
  {
    if run != [] {
      SkippedStep(s, i, base, drawn, run[0]);
      SkippedRun(Step(true, s, run[0]), i, base, if s.threads[run[0]].Outside? then drawn + 1 else drawn, run[1..]);
    }
  }

  lemma PastIs(base: nat, x: nat)
    requires base <= x < base + WORD
    ensures Past(base % WORD, x % WORD) == x - base
  {
  }

  /** All tickets held besides `next` and the one after it are further on. */
  lemma OtherTickets(q: Lock, a: nat, i: nat, j: nat)
    requires LockInv(q) && a < |q.threads| && i < |q.threads| && j < |q.threads| && j != a && j != i
    requires Holds(q.threads[a], q.next) && Holds(q.threads[i], q.next + 1) && !q.threads[j].Outside?
    ensures q.next + 2 <= q.threads[j].ticket < q.ticket
  {
    assert q.arrived[q.next] == a && q.arrived[q.next + 1] == i;
  }

  lemma WaiterStays(q: Lock, a: nat, j: nat)
    requires a < |q.threads| && j < |q.threads| && j != a
    ensures BareUnlock(Wrap(q), a).threads[j] == WrapPc(q.threads[j])
  {
  }

  lemma OtherTicketIsPast(q: Lock, a: nat, i: nat, j: nat)
    requires LockInv(q) && a < |q.threads| < WORD && i < |q.threads| && j < |q.threads| && j != a && j != i
    requires Holds(q.threads[a], q.next) && Holds(q.threads[i], q.next + 1) && !q.threads[j].Outside?
    ensures var pc := WrapPc(q.threads[j]);
            pc.ticket < WORD && 1 <= Past((q.next + 1) % WORD, pc.ticket) < q.ticket - q.next - 1
  {
    HoldersAtMost(q.threads);
    OtherTickets(q, a, i, j);
    PastIs(q.next + 1, q.threads[j].ticket);
  }

  /** What the holder's bare unlock leaves behind, in terms of the unbounded counters. */
  lemma BareUnlockSkips(q: Lock, a: nat, i: nat)
    requires LockInv(q) && a < |q.threads| < WORD && i < |q.threads|
    requires q.threads[a].Inside? && Holds(q.threads[i], q.next + 1)
    ensures Skipped(BareUnlock(Wrap(q), a), i, (q.next + 1) % WORD, q.ticket - q.next - 1)
  {
    HoldersAtMost(q.threads);
    NobodyElseInside(q, a);
    var s := BareUnlock(Wrap(q), a);
    PastIs(q.next + 1, q.ticket);
    PastIs(q.next + 1, q.next + 2);
    NextTwice(q.next);
    WaiterStays(q, a, i);
    forall j | 0 <= j < |s.threads| && j != i && !s.threads[j].Outside?
      ensures s.threads[j].ticket < WORD
      ensures 1 <= Past((q.next + 1) % WORD, s.threads[j].ticket) < q.ticket - q.next - 1
    {
      WaiterStays(q, a, j);
      OtherTicketIsPast(q, a, i, j);
    }
  }

  lemma NextTwice(n: nat)
    ensures Add(true, Add(true, n % WORD)) == (n + 2) % WORD
  {
  }

  lemma IsNextTicket(n: nat, k: nat)
    requires n <= k < n + WORD && k % WORD == (n % WORD + 1) % WORD
    ensures k == n + 1
  {
  }

  lemma RealHolderOfNext(q: Lock, i: nat)
    requires LockInv(q) && i < |q.threads| < WORD && Holds(WrapPc(q.threads[i]), (q.next % WORD + 1) % WORD)
    ensures Holds(q.threads[i], q.next + 1)
  {
    HoldersAtMost(q.threads);
    IsNextTicket(q.next, q.threads[i].ticket);
  }

  lemma DrawnAtMostThreads(q: Lock)
    requires LockInv(q)
    ensures 0 <= q.ticket - q.next <= |q.threads|
  {
    HoldersAtMost(q.threads);
  }

  lemma RealUnlockSkips(q: Lock, a: nat, i: nat)
    requires LockInv(q) && a < |q.threads| < WORD && i < |q.threads|
    requires Wrap(q).threads[a].Inside? && Holds(Wrap(q).threads[i], (Wrap(q).next + 1) % WORD)
    ensures 0 <= q.ticket - q.next - 1 < |q.threads|
    ensures Skipped(BareUnlock(Wrap(q), a), i, (q.next + 1) % WORD, q.ticket - q.next - 1)
  {
    WrappedPlaces(q, a);
    WrappedPlaces(q, i);
    RealHolderOfNext(q, i);
    DrawnAtMostThreads(q);
    BareUnlockSkips(q, a, i);
  }

  lemma WrappedPlaces(q: Lock, j: nat)
    requires j < |q.threads|
    ensures Wrap(q).threads[j] == WrapPc(q.threads[j]) && Wrap(q).next == q.next % WORD
  {
  }

  /** From every reachable state in which one thread is inside and another holds the next ticket: after a bare
      unlock that other thread is not let in, whatever all threads do, for as long as 2^32 accesses less the
      number of threads. */
  lemma SkippedThreadStarves(s: Lock, run: seq<nat>, a: nat, i: nat, more: seq<nat>)
    requires Initial(s) && Schedule(|s.threads|, run) && Schedule(|s.threads|, more) && |s.threads| + |more| < WORD
    requires a < |s.threads| && i < |s.threads|
    requires var r := Run(true, s, run); r.threads[a].Inside? && Holds(r.threads[i], (r.next + 1) % WORD)
    ensures var e := Run(true, BareUnlock(Run(true, s, run), a), more);
            !e.threads[i].Outside? && !e.threads[i].Inside?
  {
    RealRun(s, run);
    var q := Run(false, s, run);
    RealUnlockSkips(q, a, i);
    SkippedRun(BareUnlock(Wrap(q), a), i, (q.next + 1) % WORD, q.ticket - q.next - 1, more);
  }

  /** Nobody but `a`, who is inside, holds a ticket. */
  ghost predicate NobodyWaits(s: Lock, a: nat) {
    && a < |s.threads| && s.threads[a].Inside?
    && forall j | 0 <= j < |s.threads| && j != a :: s.threads[j].Outside?
  }

  lemma OnlyOneTicketOut(q: Lock, a: nat)
    requires LockInv(q) && NobodyWaits(q, a)
    ensures q.ticket == q.next + 1
  {
    HoldersUpdate(q.threads, a, Outside);
    HoldersAtMost(q.threads[a := Outside]);
  }

  lemma NewcomerIsSkipped(q: Lock, a: nat, i: nat)
    requires LockInv(q) && NobodyWaits(q, a) && i < |q.threads|
    ensures Skipped(Step(true, BareUnlock(Wrap(q), a), i), i, (q.next + 1) % WORD, 1)
  {
    OnlyOneTicketOut(q, a);
    NextTwice(q.next);
    PastIs(q.next + 1, q.next + 2);
    var s := BareUnlock(Wrap(q), a);
    assert forall j | 0 <= j < |s.threads| :: s.threads[j].Outside?;
    assert Step(true, s, i).threads[i] == Loading(s.ticket) && s.ticket == (q.next + 1) % WORD;
    assert Step(true, s, i).ticket == (q.next + 2) % WORD by { TicketAfter(q.next + 1); }
  }

  lemma TicketAfter(n: nat)
    ensures (n % WORD + 1) % WORD == (n + 1) % WORD
  {
  }

  /** With nobody waiting at the bare unlock it is the next thread to arrive, whichever it is, that draws the
      skipped ticket: it is not let in, whatever all threads do, for close to 2^32 accesses. */
  lemma NextArrivalStarves(s: Lock, run: seq<nat>, a: nat, i: nat, more: seq<nat>)
    requires Initial(s) && Schedule(|s.threads|, run) && Schedule(|s.threads|, more) && |s.threads| <= WORD
    requires i < |s.threads| && |more| < WORD - 1 && NobodyWaits(Run(true, s, run), a)
    ensures var e := Run(true, Step(true, BareUnlock(Run(true, s, run), a), i), more);
            !e.threads[i].Outside? && !e.threads[i].Inside?
  {
    RealRun(s, run);
    var q := Run(false, s, run);
    assert NobodyWaits(q, a) by {
      forall j | 0 <= j < |q.threads| ensures Wrap(q).threads[j] == WrapPc(q.threads[j]) { WrappedPlaces(q, j); }
    }
    NewcomerIsSkipped(q, a, i);
    SkippedRun(Step(true, BareUnlock(Wrap(q), a), i), i, (q.next + 1) % WORD, 1, more);
  }

  lemma FirstGetsIn(s: Lock)
    requires Initial(s) && |s.threads| >= 3
    ensures var r := Run(true, s, [0, 0]);
            && r.ticket == 1 && r.next == 0 && r.threads[0] == Inside(0) && r.threads[1] == r.threads[2] == Outside
  {
    var s1 := Step(true, s, 0);
    assert s1.threads[0] == Loading(0) && s1.next == 0;
    assert [0, 0][1..] == [0] && [0][1..] == [];
    assert Run(true, s1, [0]) == Step(true, s1, 0);
  }

  lemma TwoDraw(s: Lock)
    requires |s.threads| >= 3 && s.ticket == 1 && s.threads[1] == s.threads[2] == Outside
    ensures var r := Run(true, s, [1, 2]);
            r.next == s.next && r.threads[0] == s.threads[0] && r.threads[1] == Loading(1) && r.threads[2] == Loading(2)
  {
    var s1 := Step(true, s, 1);
    assert s1.ticket == 2 && s1.threads[2] == Outside;
    assert [1, 2][1..] == [2] && [2][1..] == [];
    assert Run(true, s1, [2]) == Step(true, s1, 2);
  }

  /** Such a state is soon reached: thread 0 gets in, threads 1 and 2 draw tickets. Then a bare unlock lets in
      thread 2 and sends thread 1 to wait for 2^32 - 1 pauses. */
  lemma BareUnlockSkipsATicket(s: Lock)
    requires Initial(s) && |s.threads| >= 3
    ensures Schedule(|s.threads|, [0, 0, 1, 2])
    ensures var r := Run(true, s, [0, 0, 1, 2]);
            && r.next == 0 && r.threads[0] == Inside(0) && r.threads[1] == Loading(1) && r.threads[2] == Loading(2)
            && Step(true, BareUnlock(r, 0), 1).threads[1] == Pausing(1, WORD - 1)
            && Step(true, BareUnlock(r, 0), 2).threads[2] == Inside(2)
  {
    FirstGetsIn(s);
    TwoDraw(Run(true, s, [0, 0]));
    RunConcat(true, s, [0, 0], [1, 2]);
    assert [0, 0] + [1, 2] == [0, 0, 1, 2];
  }
}
