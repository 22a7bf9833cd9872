/** What every call of the lock-free ring answers, in every run: the machine watched from outside, by the calls that
    threads accept and by what each call has done to the queue when its thread is idle again. */
module Answers {
  import opened Wrappers
  import opened Bits
  import opened AtomicQueue

  /** How a call ends: its element is stored, its value is refused, it returns a value, or it comes back empty-handed. */
  datatype Answer<V> = Stored | Refused(value: V) | Got(value: V) | Empty

  datatype Reply<V> = Reply(op: Op<V>, answer: Answer<V>)

  /** The calls accepted so far, the call each thread is in, and the calls that have ended. */
  datatype Watch<V> = Watch(calls: seq<Op<V>>, open: seq<Option<Op<V>>>, log: seq<Reply<V>>)

  /** The answer of a call whose last access leads from `s` to `s'`, by what that access did: returned a value, refused
      one, stored STORED, or nothing. */
  ghost function AnswerOf<V>(s: State<V>, s': State<V>, tid: nat): Answer<V>
    requires tid < |s.threads|
  {
    if |s'.trace.taken| > |s.trace.taken| then Got(s'.trace.taken[|s'.trace.taken| - 1])
    else if |s'.trace.refused| > |s.trace.refused| then Refused(s'.trace.refused[|s'.trace.refused| - 1])
    else if s.threads[tid].PushPublish? then Stored
    else Empty
  }

  /** An idle thread accepts a call; a thread in a call that is idle after an access has ended it. */
  ghost function Observe<V>(s: State<V>, s': State<V>, a: Action<V>, w: Watch<V>): Watch<V>
    requires a.tid < |s.threads| == |s'.threads| == |w.open|
  {
    if a.event.Call? && s.threads[a.tid].Idle? then
      w.(calls := w.calls + [a.event.op], open := w.open[a.tid := Some(a.event.op)])
    else if w.open[a.tid].Some? && s'.threads[a.tid].Idle? then
      w.(log := w.log + [Reply(w.open[a.tid].value, AnswerOf(s, s', a.tid))], open := w.open[a.tid := None])
    else w
  }

  ghost function Watched<V>(c: Config, s: State<V>, run: seq<Action<V>>, w: Watch<V>): (w': Watch<V>)
    requires Shape(c, s) && Schedule(|s.threads|, run) && |w.open| == |s.threads|
    ensures |w'.open| == |w.open|
    decreases |run|
  {
    if run == [] then w
    else
      var s' := Step(c, s, run[0]);
      Watched(c, s', run[1..], Observe(s, s', run[0], w))
  }

  ghost function Unwatched<V>(threads: nat): Watch<V> { Watch([], seq(threads, _ => None), []) }

  // ---------------------------------------------------------------- what may be answered

  ghost predicate Right<V>(r: Reply<V>) {
    match r.op
    case Push(_) => r.answer.Stored?
    case TryPush(v) => r.answer.Stored? || r.answer == Refused(v)
    case Pop => r.answer.Got?
    case TryPop => r.answer.Got? || r.answer.Empty?
  }

  /** The values returned, and those refused, in the order of the answers. */
  ghost function GotValues<V>(log: seq<Reply<V>>): seq<V> {
    if log == [] then []
    else
      var r := log[|log| - 1];
      GotValues(log[..|log| - 1]) + if r.answer.Got? then [r.answer.value] else []
  }

  ghost function RefusedValues<V>(log: seq<Reply<V>>): seq<V> {
    if log == [] then []
    else
      var r := log[|log| - 1];
      RefusedValues(log[..|log| - 1]) + if r.answer.Refused? then [r.answer.value] else []
  }

  /** Where a thread may be, by the call it is in. The blocking calls have no access at which they could give up. */
  ghost predicate Fits<V>(c: Config, op: Option<Op<V>>, pc: Pc<V>) {
    match op
    case None => pc.Idle?
    case Some(Push(v)) => (pc.PushTake? || (c.spsc && pc.PushAdvance?) || DoesPush(pc)) && pc.value == v
    case Some(TryPush(v)) => (pc.PushLoad? || pc.PushCheck? || pc.PushAdvance? || DoesPush(pc)) && pc.value == v
    case Some(Pop) => pc.PopTake? || (c.spsc && pc.PopAdvance?) || DoesPop(pc)
    case Some(TryPop) => pc.PopLoad? || pc.PopCheck? || pc.PopAdvance? || DoesPop(pc)
  }

  ghost predicate AllFit<V>(c: Config, s: State<V>, w: Watch<V>) {
    |w.open| == |s.threads| && forall k | 0 <= k < |s.threads| :: Fits(c, w.open[k], s.threads[k])
  }

  ghost predicate LogRight<V>(s: State<V>, log: seq<Reply<V>>) {
    && (forall k | 0 <= k < |log| :: Right(log[k]))
    && GotValues(log) == s.trace.taken && RefusedValues(log) == s.trace.refused
  }

  /** An access of a thread in a call: it stays in it, or ends it with a right answer. */
  ghost predicate Ends<V>(c: Config, s: State<V>, s': State<V>, tid: nat, op: Op<V>)
    requires tid < |s.threads| == |s'.threads|
  {
    if s'.threads[tid].Idle? then
      var x := AnswerOf(s, s', tid);
      && Right(Reply(op, x))
      && s'.trace.taken == s.trace.taken + (if x.Got? then [x.value] else [])
      && s'.trace.refused == s.trace.refused + (if x.Refused? then [x.value] else [])
    else Fits(c, Some(op), s'.threads[tid]) && s'.trace.taken == s.trace.taken && s'.trace.refused == s.trace.refused
  }

  lemma PushEnds<V>(c: Config, s: State<V>, tid: nat, e: Event<V>, op: Op<V>)
    requires Shape(c, s) && tid < |s.threads| && !e.Call? && Fits(c, Some(op), s.threads[tid]) && (op.Push? || op.TryPush?)
    ensures Ends(c, s, Step(c, s, Action(tid, e)), tid, op)
  {
  }

  lemma PopEnds<V>(c: Config, s: State<V>, tid: nat, e: Event<V>, op: Op<V>)
    requires Shape(c, s) && tid < |s.threads| && !e.Call? && Fits(c, Some(op), s.threads[tid]) && (op.Pop? || op.TryPop?)
    ensures Ends(c, s, Step(c, s, Action(tid, e)), tid, op)
  {
  }

  lemma CallFits<V>(c: Config, s: State<V>, tid: nat, op: Op<V>)
    requires Shape(c, s) && tid < |s.threads|
    ensures var s' := Step(c, s, Action(tid, Call(op)));
            && s'.trace.taken == s.trace.taken && s'.trace.refused == s.trace.refused
            && if s.threads[tid].Idle? then Fits(c, Some(op), s'.threads[tid]) else s'.threads == s.threads
  {
  }

  lemma LogGrows<V>(s: State<V>, s': State<V>, log: seq<Reply<V>>, r: Reply<V>)
    requires LogRight(s, log) && Right(r)
    requires s'.trace.taken == s.trace.taken + (if r.answer.Got? then [r.answer.value] else [])
    requires s'.trace.refused == s.trace.refused + (if r.answer.Refused? then [r.answer.value] else [])
    ensures LogRight(s', log + [r])
  {
    assert (log + [r])[..|log|] == log;
  }

  lemma ObserveStep<V>(c: Config, s: State<V>, a: Action<V>, w: Watch<V>)
    requires Shape(c, s) && a.tid < |s.threads| && AllFit(c, s, w) && LogRight(s, w.log)
    ensures var s' := Step(c, s, a);
            AllFit(c, s', Observe(s, s', a, w)) && LogRight(s', Observe(s, s', a, w).log)
  {
    var s', op := Step(c, s, a), w.open[a.tid];
    assert Fits(c, op, s.threads[a.tid]);
    if a.event.Call? {
      CallFits(c, s, a.tid, a.event.op);
    } else if op.Some? {
      if op.value.Push? || op.value.TryPush? {
        PushEnds(c, s, a.tid, a.event, op.value);
      } else {
        PopEnds(c, s, a.tid, a.event, op.value);
      }
      if s'.threads[a.tid].Idle? { LogGrows(s, s', w.log, Reply(op.value, AnswerOf(s, s', a.tid))); }
    }
  }

  // ---------------------------------------------------------------- every call is answered once

  ghost function Count<V(!new)>(ops: seq<Op<V>>, p: Op<V> -> bool): nat {
    if ops == [] then 0 else Count(ops[..|ops| - 1], p) + if p(ops[|ops| - 1]) then 1 else 0
  }

  ghost function Replied<V(!new)>(log: seq<Reply<V>>, p: Op<V> -> bool): nat {
    if log == [] then 0 else Replied(log[..|log| - 1], p) + if p(log[|log| - 1].op) then 1 else 0
  }

  /** How many threads are in a call of the kind `p`. */
  ghost function Busy<V(!new)>(open: seq<Option<Op<V>>>, p: Op<V> -> bool): nat {
    if open == [] then 0 else Busy(open[..|open| - 1], p) + IsIn(open[|open| - 1], p)
  }

  ghost function IsIn<V(!new)>(op: Option<Op<V>>, p: Op<V> -> bool): nat { if op.Some? && p(op.value) then 1 else 0 }

  lemma {:induction false} BusyUpdate<V(!new)>(open: seq<Option<Op<V>>>, k: nat, op: Option<Op<V>>, p: Op<V> -> bool)
    requires k < |open|
    ensures Busy(open[k := op], p) + IsIn(open[k], p) == Busy(open, p) + IsIn(op, p)
  {
    var n := |open| - 1;
    if k == n {
      assert open[k := op][..n] == open[..n];
    } else {
      assert open[k := op][..n] == open[..n][k := op];
      BusyUpdate(open[..n], k, op, p);
    }
  }

  ghost predicate Balanced<V(!new)>(w: Watch<V>, p: Op<V> -> bool) {
    Count(w.calls, p) == Replied(w.log, p) + Busy(w.open, p)
  }

  lemma CallBalance<V(!new)>(w: Watch<V>, tid: nat, op: Op<V>, p: Op<V> -> bool)
    requires tid < |w.open| && w.open[tid].None? && Balanced(w, p)
    ensures Balanced(w.(calls := w.calls + [op], open := w.open[tid := Some(op)]), p)
  {
    BusyUpdate(w.open, tid, Some(op), p);
    assert (w.calls + [op])[..|w.calls|] == w.calls;
  }

  lemma ReplyBalance<V(!new)>(w: Watch<V>, tid: nat, x: Answer<V>, p: Op<V> -> bool)
    requires tid < |w.open| && w.open[tid].Some? && Balanced(w, p)
    ensures Balanced(w.(log := w.log + [Reply(w.open[tid].value, x)], open := w.open[tid := None]), p)
  {
    BusyUpdate(w.open, tid, None, p);
    assert (w.log + [Reply(w.open[tid].value, x)])[..|w.log|] == w.log;
  }

  lemma ObserveBalance<V(!new)>(s: State<V>, s': State<V>, a: Action<V>, w: Watch<V>, p: Op<V> -> bool)
    requires a.tid < |s.threads| == |s'.threads| == |w.open| && Balanced(w, p)
    requires w.open[a.tid].None? <==> s.threads[a.tid].Idle?
    ensures Balanced(Observe(s, s', a, w), p)
  {
    if a.event.Call? && s.threads[a.tid].Idle? {
      CallBalance(w, a.tid, a.event.op, p);
    } else if w.open[a.tid].Some? && s'.threads[a.tid].Idle? {
      ReplyBalance(w, a.tid, AnswerOf(s, s', a.tid), p);
    }
  }

  lemma {:induction false} WatchedRun<V(!new)>(c: Config, s: State<V>, run: seq<Action<V>>, w: Watch<V>, p: Op<V> -> bool)
    requires Shape(c, s) && Schedule(|s.threads|, run) && AllFit(c, s, w) && LogRight(s, w.log) && Balanced(w, p)
    ensures var e, v := Run(c, s, run), Watched(c, s, run, w); AllFit(c, e, v) && LogRight(e, v.log) && Balanced(v, p)
    decreases |run|
  {
    if run != [] {
      var s' := Step(c, s, run[0]);
      ObserveStep(c, s, run[0], w);
      assert Fits(c, w.open[run[0].tid], s.threads[run[0].tid]);
      ObserveBalance(s, s', run[0], w, p);
      WatchedRun(c, s', run[1..], Observe(s, s', run[0], w), p);
    }
  }

  lemma {:induction false} NobodyBusy<V(!new)>(threads: nat, p: Op<V> -> bool)
    ensures Busy(seq(threads, _ => None), p) == 0
  {
    if threads > 0 {
      var open: seq<Option<Op<V>>> := seq(threads, _ => None);
      assert open[..threads - 1] == seq(threads - 1, _ => None);
      NobodyBusy<V>(threads - 1, p);
    }
  }

  /** In every run, with any slot protocol branch and either kind of counter: of the calls accepted, of whatever kind `p`,
      each has been answered once or a thread is still in it. A push has stored its element; a try_push has stored it or
      refused its own value; a pop has returned a value; a try_pop has returned one or come back empty-handed. The
      values returned and refused are those of the answers, in order. */
  lemma EveryCallIsAnswered<V(!new)>(c: Config, s: State<V>, run: seq<Action<V>>, p: Op<V> -> bool)
    requires Initial(c, s) && Schedule(|s.threads|, run)
    ensures var e, w := Run(c, s, run), Watched(c, s, run, Unwatched(|s.threads|));
            && Count(w.calls, p) == Replied(w.log, p) + Busy(w.open, p)
            && (forall k | 0 <= k < |w.log| :: Right(w.log[k]))
            && GotValues(w.log) == e.trace.taken && RefusedValues(w.log) == e.trace.refused
            && |w.open| == |e.threads| && (forall k | 0 <= k < |w.open| :: w.open[k].None? <==> e.threads[k].Idle?)
  {
    NobodyBusy<V>(|s.threads|, p);
    WatchedRun(c, s, run, Unwatched(|s.threads|), p);
    var e, w := Run(c, s, run), Watched(c, s, run, Unwatched(|s.threads|));
    forall k | 0 <= k < |w.open| ensures w.open[k].None? <==> e.threads[k].Idle? {
      assert Fits(c, w.open[k], e.threads[k]);
    }
  }

  // ---------------------------------------------------------------- blocking calls only

  predicate Blocking<V>(op: Op<V>) { op.Push? || op.Pop? }

  predicate IsPop<V>(op: Op<V>) { op.Pop? }

  predicate IsPush<V>(op: Op<V>) { op.Push? }

  ghost predicate BlockingRun<V>(run: seq<Action<V>>) {
    forall k | 0 <= k < |run| && run[k].event.Call? :: Blocking(run[k].event.op)
  }

  ghost predicate AllBlocking<V>(w: Watch<V>) {
    && (forall k | 0 <= k < |w.open| && w.open[k].Some? :: Blocking(w.open[k].value))
    && (forall k | 0 <= k < |w.log| :: Blocking(w.log[k].op))
  }

  lemma {:induction false} WatchedBlocking<V>(c: Config, s: State<V>, run: seq<Action<V>>, w: Watch<V>)
    requires Shape(c, s) && Schedule(|s.threads|, run) && |w.open| == |s.threads| && AllBlocking(w) && BlockingRun(run)
    ensures AllBlocking(Watched(c, s, run, w))
    decreases |run|
  {
    if run != [] {
      var s' := Step(c, s, run[0]);
      assert AllBlocking(Observe(s, s', run[0], w));
      WatchedBlocking(c, s', run[1..], Observe(s, s', run[0], w));
    }
  }

  lemma {:induction false} BlockingAnswers<V(!new)>(log: seq<Reply<V>>)
    requires forall k | 0 <= k < |log| :: Right(log[k]) && Blocking(log[k].op)
    ensures RefusedValues(log) == [] && |GotValues(log)| == Replied(log, IsPop)
    ensures Replied(log, IsPush) + Replied(log, IsPop) == |log|
  {
    if log != [] { BlockingAnswers(log[..|log| - 1]); }
  }

  /** How many threads are somewhere in a pop, and how many in a push. */
  ghost function InPop<V>(threads: seq<Pc<V>>): nat {
    if threads == [] then 0
    else
      var pc := threads[|threads| - 1];
      InPop(threads[..|threads| - 1]) + if TakesPop(pc) || DoesPop(pc) then 1 else 0
  }

  ghost function InPush<V>(threads: seq<Pc<V>>): nat {
    if threads == [] then 0
    else
      var pc := threads[|threads| - 1];
      InPush(threads[..|threads| - 1]) + if TakesPush(pc) || DoesPush(pc) then 1 else 0
  }

  lemma {:induction false} BusyThreads<V(!new)>(c: Config, open: seq<Option<Op<V>>>, threads: seq<Pc<V>>)
    requires |open| == |threads| && forall k | 0 <= k < |threads| :: Fits(c, open[k], threads[k])
    requires forall k | 0 <= k < |open| && open[k].Some? :: Blocking(open[k].value)
    ensures Busy(open, IsPop) == InPop(threads) && Busy(open, IsPush) == InPush(threads)
  {
    if threads != [] {
      var n := |threads| - 1;
      assert Fits(c, open[n], threads[n]);
      BusyThreads(c, open[..n], threads[..n]);
    }
  }

  /** With blocking calls only nothing is ever refused, and no pop comes back without a value: the pops accepted are the
      values returned plus the threads still in a pop, and the pushes accepted those that have stored their element
      plus the threads still in a push. */
  lemma BlockingPopsReturnValues<V(!new)>(c: Config, s: State<V>, run: seq<Action<V>>)
    requires Initial(c, s) && Schedule(|s.threads|, run) && BlockingRun(run)
    ensures var e, w := Run(c, s, run), Watched(c, s, run, Unwatched(|s.threads|));
            && e.trace.refused == []
            && Count(w.calls, IsPop) == |e.trace.taken| + InPop(e.threads)
            && Count(w.calls, IsPush) == |w.log| - |e.trace.taken| + InPush(e.threads)
  {
    var w0 := Unwatched<V>(|s.threads|);
    NobodyBusy<V>(|s.threads|, IsPop);
    NobodyBusy<V>(|s.threads|, IsPush);
    WatchedRun(c, s, run, w0, IsPop);
    WatchedRun(c, s, run, w0, IsPush);
    WatchedBlocking(c, s, run, w0);
    var e, w := Run(c, s, run), Watched(c, s, run, w0);
    BlockingAnswers(w.log);
    BusyThreads(c, w.open, e.threads);
  }

  // ---------------------------------------------------------------- a pop on an empty queue

  /** One thread calling pop and getting its ticket. */
  ghost function PopSteps<V>(c: Config, tid: nat, residue: V): seq<Action<V>> {
    [Action(tid, Call(Pop)), Action(tid, Go(residue))] + if c.spsc then [Action(tid, Go(residue))] else []
  }

  /** A pop takes the ticket at `tail_`, whatever `head_` is: a full, an empty and an overdrawn queue alike. */
  lemma PopTakesATicket<V>(c: Config, s: State<V>, tid: nat, residue: V)
    requires Shape(c, s) && tid < |s.threads| && s.threads[tid].Idle?
    ensures Schedule(|s.threads|, PopSteps(c, tid, residue))
    ensures Run(c, s, PopSteps(c, tid, residue))
         == s.(tail := Next(c, s.tail), threads := s.threads[tid := PopSlot(s.tail)])
  {
    var go := Action(tid, Go(residue));
    var s1 := Step(c, s, Action(tid, Call(Pop)));
    var s2 := Step(c, s1, go);
    RunOne(c, s1, go);
    assert PopSteps(c, tid, residue)[1..] == [go] + if c.spsc then [go] else [];
    if c.spsc {
      RunOne(c, s2, go);
      assert [go, go][1..] == [go];
      assert Step(c, s2, go).threads == s.threads[tid := PopSlot(s.tail)];
    } else {
      assert s2.threads == s.threads[tid := PopSlot(s.tail)];
    }
  }

  lemma RunOne<V>(c: Config, s: State<V>, a: Action<V>)
    requires Shape(c, s) && a.tid < |s.threads|
    ensures Run(c, s, [a]) == Step(c, s, a)
  {
    assert [a][1..] == [];
  }

  ghost predicate NoPushes<V>(run: seq<Action<V>>) {
    forall k | 0 <= k < |run| && run[k].event.Call? :: run[k].event.op.Pop? || run[k].event.op.TryPop?
  }

  /** Nobody is pushing, and no slot holds anything. */
  ghost predicate Barren<V>(c: Config, s: State<V>)
    requires Shape(c, s)
  {
    && (forall k | 0 <= k < |s.threads| :: s.threads[k].Idle? || TakesPop(s.threads[k]) || s.threads[k].PopSlot?)
    && forall i | 0 <= i < c.Size() :: s.states[i] == EMPTY
  }

  lemma BarrenStep<V>(c: Config, s: State<V>, a: Action<V>)
    requires Shape(c, s) && a.tid < |s.threads| && Barren(c, s)
    requires a.event.Call? ==> a.event.op.Pop? || a.event.op.TryPop?
    ensures var s' := Step(c, s, a);
            && Barren(c, s') && s'.trace == s.trace
            && forall k | 0 <= k < |s.threads| && s.threads[k].PopSlot? :: s'.threads[k] == s.threads[k]
  {
  }

  lemma {:induction false} BarrenRun<V>(c: Config, s: State<V>, run: seq<Action<V>>)
    requires Shape(c, s) && Schedule(|s.threads|, run) && Barren(c, s) && NoPushes(run)
    ensures var e := Run(c, s, run);
            && e.trace == s.trace
            && forall k | 0 <= k < |s.threads| && s.threads[k].PopSlot? :: e.threads[k] == s.threads[k]
    decreases |run|
  {
    if run != [] {
      BarrenStep(c, s, run[0]);
      BarrenRun(c, Step(c, s, run[0]), run[1..]);
    }
  }

  /** On a new queue a pop moves `tail_` on by one all the same, and then waits: as long as nobody pushes, whatever
      others pop, it stays where it is and nothing is returned. */
  lemma PopWaitsForAPush<V>(c: Config, s: State<V>, tid: nat, residue: V, more: seq<Action<V>>)
    requires Initial(c, s) && tid < |s.threads| && Schedule(|s.threads|, more) && NoPushes(more)
    ensures var r := Run(c, s, PopSteps(c, tid, residue));
            && Schedule(|s.threads|, PopSteps(c, tid, residue)) && r.tail == 1 && r.head == 0
            && Run(c, r, more).threads[tid] == PopSlot(0) && Run(c, r, more).trace.taken == []
  {
    PopTakesATicket(c, s, tid, residue);
    BarrenRun(c, Run(c, s, PopSteps(c, tid, residue)), more);
  }
}
