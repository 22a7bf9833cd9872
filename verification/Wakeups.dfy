/** How threads of the server wake each other: a queue together with an event counter that is added to after
    each push and taken to zero by the reader, who then pops one message. First the workers' queue to the
    listener, then the listener's queue of new clients for the workers. */
module Wakeups {
  import opened Wrappers

  // ---------------------------------------------------------------- many workers, one listener

  /** `announcing` counts pushes whose write to the event counter is still to come; `reading` says that the
      listener has read the counter and pops next. The rest is bookkeeping: the messages pushed, the messages
      handled, what each read of the counter found, and the pushes nobody announces. */
  datatype Post<M> = Post(queue: seq<M>, counter: nat, announcing: nat, reading: bool,
                          pushed: seq<M>, handled: seq<M>, found: seq<nat>, quiet: nat)

  datatype Event<M> =
    | Push(message: M)     // worker_push: try_push; a full queue is an exception and nothing is announced
    | Announce             // worker_push: write 1 to the event counter
    | QuietPush(last: M)   // the listener's own message at shutdown, which no write announces
    | Read                 // the listener reads the counter; at zero that is a spurious wake-up
    | PopOne(which: nat)   // ... and pops one message, handling it if there is one; pushes may overtake each
                           // other in the ring, so it need not be the oldest

  ghost function Step<M>(p: Post<M>, capacity: nat, e: Event<M>): Post<M> {
    match e
    case Push(m) =>
      if |p.queue| < capacity then p.(queue := p.queue + [m], pushed := p.pushed + [m], announcing := p.announcing + 1)
      else p
    case Announce => if p.announcing > 0 then p.(announcing := p.announcing - 1, counter := p.counter + 1) else p
    case QuietPush(m) =>
      if |p.queue| < capacity then p.(queue := p.queue + [m], pushed := p.pushed + [m], quiet := p.quiet + 1) else p
    case Read =>
      if !p.reading && p.counter > 0 then p.(reading := true, counter := 0, found := p.found + [p.counter]) else p
    case PopOne(k) =>
      if !p.reading then p
      else if p.queue == [] then p.(reading := false)
      else
        var i := if k < |p.queue| then k else 0;
        p.(reading := false, queue := p.queue[..i] + p.queue[i + 1..], handled := p.handled + [p.queue[i]])
  }

  ghost function Run<M>(p: Post<M>, capacity: nat, run: seq<Event<M>>): Post<M>
    decreases |run|
  {
    if run == [] then p else Run(Step(p, capacity, run[0]), capacity, run[1..])
  }

  ghost function Start<M>(): Post<M> { Post([], 0, 0, false, [], [], [], 0) }

  /** What the reads found beyond one announcement each. */
  ghost function Surplus(found: seq<nat>): int {
    if found == [] then 0 else Surplus(found[..|found| - 1]) + found[|found| - 1] - 1
  }

  lemma SurplusAppend(found: seq<nat>, n: nat)
    ensures Surplus(found + [n]) == Surplus(found) + n - 1
  {
    assert (found + [n])[..|found|] == found;
  }

  lemma {:induction false} SurplusIsZeroIff(found: seq<nat>)
    requires forall k | 0 <= k < |found| :: found[k] > 0
    ensures Surplus(found) >= 0
    ensures Surplus(found) == 0 <==> forall k | 0 <= k < |found| :: found[k] == 1
  {
    if found != [] { SurplusIsZeroIff(found[..|found| - 1]); }
  }

  ghost predicate PostInv<M>(p: Post<M>) {
    && multiset(p.pushed) == multiset(p.handled) + multiset(p.queue)
    && (forall k | 0 <= k < |p.found| :: p.found[k] > 0)
    && |p.queue| == p.announcing + p.counter + Surplus(p.found) + p.quiet + (if p.reading then 1 else 0)
  }

  lemma Without<M>(queue: seq<M>, i: nat)
    requires i < |queue|
    ensures multiset(queue) == multiset(queue[..i] + queue[i + 1..]) + multiset{queue[i]}
  {
    assert queue == queue[..i] + [queue[i]] + queue[i + 1..];
  }

  lemma PostStep<M>(p: Post<M>, capacity: nat, e: Event<M>)
    requires PostInv(p)
    ensures PostInv(Step(p, capacity, e))
  {
    match e
    case PopOne(k) => PopStep(p, capacity, k);
    case Push(m) => BothGrow(p.pushed, p.handled, p.queue, m);
    case QuietPush(m) => BothGrow(p.pushed, p.handled, p.queue, m);
    case Read => SurplusAppend(p.found, p.counter);
    case _ =>
  }

  lemma PopStep<M>(p: Post<M>, capacity: nat, k: nat)
    requires PostInv(p)
    ensures PostInv(Step(p, capacity, PopOne(k)))
  {
    SurplusIsZeroIff(p.found);
    if p.queue != [] {
      var i := if k < |p.queue| then k else 0;
      Without(p.queue, i);
      Transfer(p.handled, p.queue[..i] + p.queue[i + 1..], p.queue, p.queue[i]);
    }
  }

  lemma Transfer<M>(handled: seq<M>, rest: seq<M>, queue: seq<M>, m: M)
    requires multiset(queue) == multiset(rest) + multiset{m}
    ensures multiset(handled + [m]) + multiset(rest) == multiset(handled) + multiset(queue)
  {
  }

  lemma {:induction false} PostRun<M>(p: Post<M>, capacity: nat, run: seq<Event<M>>)
    requires PostInv(p)
    ensures PostInv(Run(p, capacity, run))
    decreases |run|
  {
    if run != [] {
      PostStep(p, capacity, run[0]);
      PostRun(Step(p, capacity, run[0]), capacity, run[1..]);
    }
  }

  /** Every message is handled at most once and none is lost on the way, and a wake-up never finds the queue
      empty. */
  lemma HandledOnce<M>(capacity: nat, run: seq<Event<M>>)
    ensures var p := Run(Start<M>(), capacity, run);
            && multiset(p.pushed) == multiset(p.handled) + multiset(p.queue)
            && (p.reading ==> p.queue != [])
  {
    PostRun(Start<M>(), capacity, run);
    SurplusIsZeroIff(Run(Start<M>(), capacity, run).found);
  }

  ghost predicate OldestFirst<M>(run: seq<Event<M>>) { forall k | 0 <= k < |run| && run[k].PopOne? :: run[k].which == 0 }

  /** If the queue gives up its oldest message each time, they are handled in the order of the pushes. */
  lemma {:induction false} HandledInOrder<M>(p: Post<M>, capacity: nat, run: seq<Event<M>>)
    requires p.pushed == p.handled + p.queue && OldestFirst(run)
    ensures var r := Run(p, capacity, run); r.pushed == r.handled + r.queue
    decreases |run|
  {
    if run != [] {
      InOrderStep(p, capacity, run[0]);
      HandledInOrder(Step(p, capacity, run[0]), capacity, run[1..]);
    }
  }

  lemma InOrderStep<M>(p: Post<M>, capacity: nat, e: Event<M>)
    requires p.pushed == p.handled + p.queue && (e.PopOne? ==> e.which == 0)
    ensures var q := Step(p, capacity, e); q.pushed == q.handled + q.queue
  {
    match e
    case PopOne(_) =>
      if p.queue != [] {
        FirstMoves(p.handled, p.queue);
        assert p.queue[..0] + p.queue[1..] == p.queue[1..];
      }
    case Push(m) => assert p.handled + (p.queue + [m]) == p.handled + p.queue + [m];
    case QuietPush(m) => assert p.handled + (p.queue + [m]) == p.handled + p.queue + [m];
    case _ =>
  }

  lemma FirstMoves<M>(handled: seq<M>, queue: seq<M>)
    requires queue != []
    ensures handled + queue == handled + [queue[0]] + queue[1..]
  {
  }

  /** Every push that will be announced has been, the counter is zero and nobody is about to pop: only a new
      push gets things going again. */
  ghost predicate Asleep<M>(p: Post<M>) { p.announcing == 0 && p.counter == 0 && !p.reading }

  /** Asleep, the server has handled everything exactly when every read found exactly one announcement and
      every push was announced; else as many messages lie stranded as were missed, and without a new push they
      stay. */
  lemma StrandedIffReadsCoalesce<M>(capacity: nat, run: seq<Event<M>>, e: Event<M>)
    requires Asleep(Run(Start<M>(), capacity, run))
    ensures var p := Run(Start<M>(), capacity, run);
            && |p.queue| == Surplus(p.found) + p.quiet
            && (multiset(p.handled) == multiset(p.pushed)
                <==> p.quiet == 0 && forall k | 0 <= k < |p.found| :: p.found[k] == 1)
            && (!e.Push? && !e.QuietPush? ==> Step(p, capacity, e) == p)
  {
    var p := Run(Start<M>(), capacity, run);
    PostRun(Start<M>(), capacity, run);
    SurplusIsZeroIff(p.found);
    if multiset(p.handled) == multiset(p.pushed) {
      assert |multiset(p.pushed)| == |multiset(p.handled)| + |multiset(p.queue)|;
    }
  }

  ghost function Pushes<M>(ms: seq<M>): (run: seq<Event<M>>)
    ensures |run| == |ms|
  {
    if ms == [] then [] else Pushes(ms[..|ms| - 1]) + [Push(ms[|ms| - 1])]
  }

  ghost function Announces<M>(n: nat): (run: seq<Event<M>>)
    ensures |run| == n
  {
    if n == 0 then [] else Announces(n - 1) + [Announce]
  }

  lemma {:induction false} RunAppend<M>(p: Post<M>, capacity: nat, a: seq<Event<M>>, b: seq<Event<M>>)
    ensures Run(p, capacity, a + b) == Run(Run(p, capacity, a), capacity, b)
    decreases |a|
  {
    if a == [] {
      assert a + b == b;
    } else {
      assert (a + b)[1..] == a[1..] + b;
      RunAppend(Step(p, capacity, a[0]), capacity, a[1..], b);
    }
  }

  lemma RunOne<M>(p: Post<M>, capacity: nat, e: Event<M>)
    ensures Run(p, capacity, [e]) == Step(p, capacity, e)
  {
    assert [e][1..] == [];
  }

  lemma {:induction false} AfterPushes<M>(capacity: nat, ms: seq<M>)
    requires |ms| <= capacity
    ensures Run(Start<M>(), capacity, Pushes(ms)) == Start<M>().(queue := ms, pushed := ms, announcing := |ms|)
  {
    if ms != [] {
      var n := |ms| - 1;
      AfterPushes(capacity, ms[..n]);
      RunAppend(Start<M>(), capacity, Pushes(ms[..n]), [Push(ms[n])]);
      RunOne(Run(Start<M>(), capacity, Pushes(ms[..n])), capacity, Push(ms[n]));
      assert ms == ms[..n] + [ms[n]];
    }
  }

  lemma {:induction false} AfterAnnounces<M>(p: Post<M>, capacity: nat, n: nat)
    requires n <= p.announcing
    ensures Run(p, capacity, Announces(n)) == p.(announcing := p.announcing - n, counter := p.counter + n)
  {
    if n > 0 {
      AfterAnnounces(p, capacity, n - 1);
      RunAppend(p, capacity, Announces(n - 1), [Announce]);
      RunOne(Run(p, capacity, Announces(n - 1)), capacity, Announce);
    }
  }

  /** A read takes the whole counter: of any number of messages announced before one read, all but the first are
      stranded. */
  lemma AllButTheFirstAreStranded<M>(capacity: nat, ms: seq<M>)
    requires 1 <= |ms| <= capacity
    ensures var p := Run(Start<M>(), capacity, Pushes(ms) + Announces(|ms|) + [Read] + [PopOne(0)]);
            Asleep(p) && p.handled == [ms[0]] && p.queue == ms[1..]
  {
    var s := Start<M>();
    AfterPushes(capacity, ms);
    AfterAnnounces(Run(s, capacity, Pushes(ms)), capacity, |ms|);
    RunAppend(s, capacity, Pushes(ms), Announces(|ms|));
    var p := Run(s, capacity, Pushes(ms) + Announces(|ms|));
    RunAppend(s, capacity, Pushes(ms) + Announces(|ms|), [Read]);
    RunOne(p, capacity, Read);
    RunAppend(s, capacity, Pushes(ms) + Announces(|ms|) + [Read], [PopOne(0)]);
    RunOne(Step(p, capacity, Read), capacity, PopOne(0));
    assert ms[..0] + ms[1..] == ms[1..];
  }

  // ---------------------------------------------------------------- one listener, many workers

  /** A message on the listener's queue: for which worker, and whether it is an ACCEPT. */
  datatype Order = Order(worker: nat, accept: bool, client: int)

  /** worker_process_listener_to_worker_q for worker `me`, once its event counter has been read: the queue
      afterwards and the client it takes on. An ACCEPT for someone else is popped and forgotten; anything but
      an ACCEPT is put back. */
  function Process(queue: seq<Order>, me: nat): (seq<Order>, Option<int>) {
    if queue == [] then (queue, None)
    else
      var o := queue[0];
      if o.accept then (queue[1..], if o.worker == me then Some(o.client) else None)
      else (queue[1..] + [o], None)
  }

  /** What workers `ws`, woken in this order, take on. */
  function ProcessAll(queue: seq<Order>, ws: seq<nat>): (seq<Order>, seq<(nat, int)>)
    decreases |ws|
  {
    if ws == [] then (queue, [])
    else
      var (q, taken) := Process(queue, ws[0]);
      var (q', rest) := ProcessAll(q, ws[1..]);
      (q', (if taken.Some? then [(ws[0], taken.value)] else []) + rest)
  }

  /** The clients the orders name, each with its worker. */
  function Assignments(queue: seq<Order>): seq<(nat, int)> {
    if queue == [] then [] else [(queue[0].worker, queue[0].client)] + Assignments(queue[1..])
  }

  function Workers(queue: seq<Order>): seq<nat> {
    if queue == [] then [] else [queue[0].worker] + Workers(queue[1..])
  }

  ghost predicate AllAccepts(queue: seq<Order>) { forall k | 0 <= k < |queue| :: queue[k].accept }

  lemma {:induction false} TakenAtMost(queue: seq<Order>, ws: seq<nat>)
    requires AllAccepts(queue) && |ws| == |queue|
    ensures ProcessAll(queue, ws).0 == []
    ensures |ProcessAll(queue, ws).1| <= |queue|
    decreases |ws|
  {
    if ws != [] { TakenAtMost(queue[1..], ws[1..]); }
  }

  /** The queue holds ACCEPTs only, each of which wakes its worker once. If the workers pop in the order the
      clients were assigned, every client gets its worker; in any other order the queue is emptied all the
      same and some client gets none. */
  lemma {:induction false} NoClientLostIffInOrder(queue: seq<Order>, ws: seq<nat>)
    requires AllAccepts(queue) && |ws| == |queue|
    ensures ProcessAll(queue, ws).0 == []
    ensures ProcessAll(queue, ws).1 == Assignments(queue) <==> ws == Workers(queue)
    ensures |ProcessAll(queue, ws).1| == |queue| <==> ws == Workers(queue)
    decreases |ws|
  {
    if ws != [] {
      var rest, ws' := queue[1..], ws[1..];
      NoClientLostIffInOrder(rest, ws');
      TakenAtMost(rest, ws');
      AssignmentsLength(queue);
      AssignmentsLength(rest);
      assert ws == [ws[0]] + ws';
      assert Workers(queue)[0] == queue[0].worker && Workers(queue)[1..] == Workers(rest);
      if ws[0] == queue[0].worker {
        var taken := ProcessAll(rest, ws').1;
        assert ([(ws[0], queue[0].client)] + taken)[1..] == taken;
        assert Assignments(queue)[1..] == Assignments(rest);
      }
    }
  }

  lemma {:induction false} AssignmentsLength(queue: seq<Order>)
    ensures |Assignments(queue)| == |queue|
  {
    if queue != [] { AssignmentsLength(queue[1..]); }
  }

  /** The messages other than ACCEPTs. */
  ghost function Others(queue: seq<Order>): multiset<Order> {
    if queue == [] then multiset{}
    else Others(queue[..|queue| - 1]) + if queue[|queue| - 1].accept then multiset{} else multiset{queue[|queue| - 1]}
  }

  lemma {:induction false} OthersFromFront(queue: seq<Order>)
    requires queue != []
    ensures Others(queue) == (if queue[0].accept then multiset{} else multiset{queue[0]}) + Others(queue[1..])
  {
    var n := |queue| - 1;
    if n > 0 {
      OthersFromFront(queue[..n]);
      assert queue[..n][1..] == queue[1..][..n - 1];
    }
  }

  /** No other message than an ACCEPT is ever lost, whoever pops it. */
  lemma {:induction false} OthersArePutBack(queue: seq<Order>, ws: seq<nat>)
    ensures Others(ProcessAll(queue, ws).0) == Others(queue)
    decreases |ws|
  {
    if ws != [] {
      OthersArePutBack(Process(queue, ws[0]).0, ws[1..]);
      if queue != [] {
        OthersFromFront(queue);
        if !queue[0].accept { assert (queue[1..] + [queue[0]])[..|queue| - 1] == queue[1..]; }
      }
    }
  }

  // With the event counters.

  /** `announcing` is the worker whose event counter the listener still has to add to; `reading` says which workers
      have read theirs and pop next; `ended` which have no thread. The rest is bookkeeping: the orders given, those
      popped and by whom, the clients taken on, what each read of a counter found and who read it, and the announcements
      left on the counter of each worker that was launched anew. */
  datatype Roster = Roster(queue: seq<Order>, counters: seq<nat>, announcing: Option<nat>, reading: seq<bool>,
                           ended: seq<bool>, given: seq<Order>, fetched: seq<Order>, poppers: seq<nat>,
                           taken: seq<(nat, int)>, found: seq<nat>, hearers: seq<nat>, unheard: seq<nat>)

  datatype Move =
    | Give(worker: nat, client: int)  // assign_client_to_worker: try_push; a full queue is an exception
    | Tell                            // ... write 1 to the worker's event counter
    | Hear(worker: nat)               // the worker reads its counter; at zero that is a spurious wake-up
    | Fetch(worker: nat, which: nat)  // ... and pops one order; pops may overtake each other in the ring
    | End(worker: nat)                // the worker's list is empty: its thread ends
    | Launch(worker: nat)             // a thread for this number, with a new event counter

  ghost predicate RosterShape(r: Roster) {
    && |r.counters| == |r.reading| == |r.ended| == |r.unheard|
    && |r.poppers| == |r.fetched| && |r.hearers| == |r.found|
    && (r.announcing.Some? ==> r.announcing.value < |r.counters|)
  }

  ghost function Popped(r: Roster, w: nat, i: nat): Roster
    requires RosterShape(r) && w < |r.reading| && i < |r.queue|
  {
    var o := r.queue[i];
    var client := Process([o], w).1;
    r.(reading := r.reading[w := false], queue := r.queue[..i] + r.queue[i + 1..],
       fetched := r.fetched + [o], poppers := r.poppers + [w],
       taken := r.taken + if client.Some? then [(w, client.value)] else [])
  }

  ghost function RosterStep(r: Roster, capacity: nat, m: Move): (r': Roster)
    requires RosterShape(r)
    ensures RosterShape(r')
  {
    match m
    case Give(w, client) =>
      if w < |r.counters| && r.announcing.None? && |r.queue| < capacity then
        var o := Order(w, true, client);
        r.(queue := r.queue + [o], given := r.given + [o], announcing := Some(w))
      else r
    case Tell =>
      if r.announcing.None? then r
      else
        var w := r.announcing.value;
        r.(announcing := None, counters := r.counters[w := r.counters[w] + 1])
    case Hear(w) =>
      if w < |r.counters| && !r.ended[w] && !r.reading[w] && r.counters[w] > 0 then
        r.(reading := r.reading[w := true], counters := r.counters[w := 0], found := r.found + [r.counters[w]],
           hearers := r.hearers + [w])
      else r
    case Fetch(w, k) =>
      if !(w < |r.counters| && r.reading[w]) then r
      else if r.queue == [] then r.(reading := r.reading[w := false])
      else Popped(r, w, if k < |r.queue| then k else 0)
    case End(w) => if w < |r.counters| && !r.reading[w] then r.(ended := r.ended[w := true]) else r
    case Launch(w) =>
      if w < |r.counters| && r.ended[w] then
        r.(ended := r.ended[w := false], counters := r.counters[w := 0],
           unheard := r.unheard[w := r.unheard[w] + r.counters[w]])
      else r
  }

  ghost function RosterRun(r: Roster, capacity: nat, run: seq<Move>): (r': Roster)
    requires RosterShape(r)
    ensures RosterShape(r')
    decreases |run|
  {
    if run == [] then r else RosterRun(RosterStep(r, capacity, run[0]), capacity, run[1..])
  }

  ghost function EmptyRoster(workers: nat): (r: Roster)
    ensures RosterShape(r)
  {
    Roster([], seq(workers, _ => 0), None, seq(workers, _ => false), seq(workers, _ => true), [], [], [], [], [], [],
           seq(workers, _ => 0))
  }

  ghost function Sum(ns: seq<nat>): nat { if ns == [] then 0 else ns[0] + Sum(ns[1..]) }

  ghost function Trues(bs: seq<bool>): nat { if bs == [] then 0 else (if bs[0] then 1 else 0) + Trues(bs[1..]) }

  lemma {:induction false} SumUpdate(ns: seq<nat>, i: nat, n: nat)
    requires i < |ns|
    ensures Sum(ns[i := n]) + ns[i] == Sum(ns) + n
  {
    if i == 0 {
      assert ns[0 := n][1..] == ns[1..];
    } else {
      assert ns[i := n][1..] == ns[1..][i - 1 := n];
      SumUpdate(ns[1..], i - 1, n);
    }
  }

  lemma {:induction false} TruesUpdate(bs: seq<bool>, i: nat, b: bool)
    requires i < |bs|
    ensures Trues(bs[i := b]) + (if bs[i] then 1 else 0) == Trues(bs) + (if b then 1 else 0)
  {
    if i == 0 {
      assert bs[0 := b][1..] == bs[1..];
    } else {
      assert bs[i := b][1..] == bs[1..][i - 1 := b];
      TruesUpdate(bs[1..], i - 1, b);
    }
  }

  lemma {:induction false} NothingUp(workers: nat)
    ensures Sum(seq(workers, _ => 0)) == 0 && Trues(seq(workers, _ => false)) == 0
  {
    if workers > 0 {
      NothingUp(workers - 1);
      assert seq(workers, _ => 0)[1..] == seq(workers - 1, _ => 0);
      assert seq(workers, _ => false)[1..] == seq(workers - 1, _ => false);
    }
  }

  /** The orders popped by the worker they were for. */
  ghost function Matches(fetched: seq<Order>, poppers: seq<nat>): seq<(nat, int)>
    requires |poppers| == |fetched|
  {
    if fetched == [] then []
    else
      var n := |fetched| - 1;
      Matches(fetched[..n], poppers[..n])
      + if fetched[n].worker == poppers[n] then [(poppers[n], fetched[n].client)] else []
  }

  lemma {:induction false} MatchesAll(fetched: seq<Order>, poppers: seq<nat>)
    requires |poppers| == |fetched|
    ensures |Matches(fetched, poppers)| <= |fetched|
    ensures |Matches(fetched, poppers)| == |fetched| <==> forall k | 0 <= k < |fetched| :: poppers[k] == fetched[k].worker
  {
    if fetched != [] { MatchesAll(fetched[..|fetched| - 1], poppers[..|fetched| - 1]); }
  }

  ghost predicate RosterInv(r: Roster) {
    && RosterShape(r)
    && (forall k | 0 <= k < |r.queue| :: r.queue[k].accept)
    && multiset(r.given) == multiset(r.fetched) + multiset(r.queue)
    && r.taken == Matches(r.fetched, r.poppers)
    && (forall k | 0 <= k < |r.found| :: r.found[k] > 0)
    && |r.queue| ==
         (if r.announcing.Some? then 1 else 0) + Sum(r.counters) + Sum(r.unheard) + Surplus(r.found) + Trues(r.reading)
  }

  lemma PoppedKeeps(r: Roster, w: nat, i: nat)
    requires RosterInv(r) && w < |r.reading| && r.reading[w] && i < |r.queue|
    ensures RosterInv(Popped(r, w, i))
  {
    var o, r' := r.queue[i], Popped(r, w, i);
    Without(r.queue, i);
    Transfer(r.fetched, r'.queue, r.queue, o);
    TruesUpdate(r.reading, w, false);
    assert r'.fetched[..|r.fetched|] == r.fetched && r'.poppers[..|r.fetched|] == r.poppers;
  }

  lemma GiveKeeps(r: Roster, capacity: nat, w: nat, client: int)
    requires RosterInv(r)
    ensures RosterInv(RosterStep(r, capacity, Give(w, client)))
  {
    BothGrow(r.given, r.fetched, r.queue, Order(w, true, client));
  }

  lemma BothGrow<T>(given: seq<T>, fetched: seq<T>, queue: seq<T>, o: T)
    requires multiset(given) == multiset(fetched) + multiset(queue)
    ensures multiset(given + [o]) == multiset(fetched) + multiset(queue + [o])
  {
  }

  lemma TellKeeps(r: Roster, capacity: nat)
    requires RosterInv(r)
    ensures RosterInv(RosterStep(r, capacity, Tell))
  {
    if r.announcing.Some? { SumUpdate(r.counters, r.announcing.value, r.counters[r.announcing.value] + 1); }
  }

  lemma HearKeeps(r: Roster, capacity: nat, w: nat)
    requires RosterInv(r)
    ensures RosterInv(RosterStep(r, capacity, Hear(w)))
  {
    if w < |r.counters| {
      SumUpdate(r.counters, w, 0);
      TruesUpdate(r.reading, w, true);
      SurplusAppend(r.found, r.counters[w]);
    }
  }

  lemma FetchKeeps(r: Roster, capacity: nat, w: nat, k: nat)
    requires RosterInv(r)
    ensures RosterInv(RosterStep(r, capacity, Fetch(w, k)))
  {
    if w < |r.counters| && r.reading[w] {
      TruesUpdate(r.reading, w, false);
      SurplusIsZeroIff(r.found);
      if r.queue != [] { PoppedKeeps(r, w, if k < |r.queue| then k else 0); }
    }
  }

  lemma RosterStepKeeps(r: Roster, capacity: nat, m: Move)
    requires RosterInv(r)
    ensures RosterInv(RosterStep(r, capacity, m))
  {
    match m
    case Give(w, client) => GiveKeeps(r, capacity, w, client);
    case Tell => TellKeeps(r, capacity);
    case Hear(w) => HearKeeps(r, capacity, w);
    case Fetch(w, k) => FetchKeeps(r, capacity, w, k);
    case End(_) =>
    case Launch(w) =>
      if w < |r.counters| {
        SumUpdate(r.counters, w, 0);
        SumUpdate(r.unheard, w, r.unheard[w] + r.counters[w]);
      }
  }

  lemma {:induction false} RosterRunKeeps(r: Roster, capacity: nat, run: seq<Move>)
    requires RosterInv(r)
    ensures RosterInv(RosterRun(r, capacity, run))
    decreases |run|
  {
    if run != [] {
      RosterStepKeeps(r, capacity, run[0]);
      RosterRunKeeps(RosterStep(r, capacity, run[0]), capacity, run[1..]);
    }
  }

  /** Every order has been announced, no worker is about to pop, and no worker that is still there has anything on
      its counter. */
  ghost predicate AllAsleep(r: Roster)
    requires RosterShape(r)
  {
    && r.announcing.None? && Trues(r.reading) == 0
    && forall w | 0 <= w < |r.counters| && !r.ended[w] :: r.counters[w] == 0
  }

  /** Announcements no worker has read: on the counters of workers that ended. */
  ghost function Unread(r: Roster): nat { Sum(r.unheard) + Sum(r.counters) }

  /** In every interleaving of the listener and its workers, workers ending and being launched anew included, and
      whichever order each pop finds: when all is asleep, as many clients are still on the queue as the reads found
      beyond one announcement each, plus the announcements no worker read; and every client has got its worker
      exactly when each read found one, none went unread, and each order was popped by the worker it was for. */
  lemma EveryClientServedIff(workers: nat, capacity: nat, run: seq<Move>)
    requires AllAsleep(RosterRun(EmptyRoster(workers), capacity, run))
    ensures var r := RosterRun(EmptyRoster(workers), capacity, run);
            && multiset(r.given) == multiset(r.fetched) + multiset(r.queue)
            && |r.queue| == Surplus(r.found) + Unread(r)
            && r.taken == Matches(r.fetched, r.poppers)
            && (|r.taken| == |r.given| <==>
                  && (forall k | 0 <= k < |r.found| :: r.found[k] == 1) && Unread(r) == 0
                  && (forall k | 0 <= k < |r.fetched| :: r.poppers[k] == r.fetched[k].worker))
  {
    var r := RosterRun(EmptyRoster(workers), capacity, run);
    NothingUp(workers);
    RosterRunKeeps(EmptyRoster(workers), capacity, run);
    SurplusIsZeroIff(r.found);
    MatchesAll(r.fetched, r.poppers);
    assert |multiset(r.given)| == |multiset(r.fetched)| + |multiset(r.queue)|;
  }

  // Worker by worker.

  ghost function GivenTo(orders: seq<Order>, w: nat): nat {
    if orders == [] then 0
    else GivenTo(orders[..|orders| - 1], w) + if orders[|orders| - 1].worker == w then 1 else 0
  }

  /** All that worker `w` has found on its counter. */
  ghost function HeardBy(found: seq<nat>, hearers: seq<nat>, w: nat): nat
    requires |hearers| == |found|
  {
    if found == [] then 0
    else
      var n := |found| - 1;
      HeardBy(found[..n], hearers[..n], w) + if hearers[n] == w then found[n] else 0
  }

  lemma GivenToAppend(orders: seq<Order>, o: Order, w: nat)
    ensures GivenTo(orders + [o], w) == GivenTo(orders, w) + if o.worker == w then 1 else 0
  {
    assert (orders + [o])[..|orders|] == orders;
  }

  lemma HeardByAppend(found: seq<nat>, hearers: seq<nat>, n: nat, h: nat, w: nat)
    requires |hearers| == |found|
    ensures HeardBy(found + [n], hearers + [h], w) == HeardBy(found, hearers, w) + if h == w then n else 0
  {
    assert (found + [n])[..|found|] == found && (hearers + [h])[..|found|] == hearers;
  }

  /** Each order given for `w` has been announced on the counter of `w` and no other, or is being announced: the
      announcements are on the counter, have been found by `w`, or were left there when it was launched anew. */
  ghost predicate Announced(r: Roster, w: nat)
    requires RosterShape(r) && w < |r.counters|
  {
    GivenTo(r.given, w)
      == r.counters[w] + HeardBy(r.found, r.hearers, w) + r.unheard[w] + if r.announcing == Some(w) then 1 else 0
  }

  lemma AnnouncedStep(r: Roster, capacity: nat, m: Move, w: nat)
    requires RosterShape(r) && w < |r.counters| && Announced(r, w)
    ensures |RosterStep(r, capacity, m).counters| == |r.counters| && Announced(RosterStep(r, capacity, m), w)
  {
    match m
    case Give(v, client) => GivenToAppend(r.given, Order(v, true, client), w);
    case Hear(v) => if v < |r.counters| { HeardByAppend(r.found, r.hearers, r.counters[v], v, w); }
    case _ =>
  }

  lemma {:induction false} AnnouncedRun(r: Roster, capacity: nat, run: seq<Move>, w: nat)
    requires RosterShape(r) && w < |r.counters| && Announced(r, w)
    ensures var e := RosterRun(r, capacity, run); |e.counters| == |r.counters| && Announced(e, w)
    decreases |run|
  {
    if run != [] {
      AnnouncedStep(r, capacity, run[0], w);
      AnnouncedRun(RosterStep(r, capacity, run[0]), capacity, run[1..], w);
    }
  }

  /** In every run it is the worker a client was assigned to that is told, once for each of its clients. */
  lemma TheAssignedWorkerIsTold(workers: nat, capacity: nat, run: seq<Move>, w: nat)
    requires w < workers
    ensures var r := RosterRun(EmptyRoster(workers), capacity, run);
            && |r.counters| == |r.unheard| == workers
            && GivenTo(r.given, w)
               == r.counters[w] + HeardBy(r.found, r.hearers, w) + r.unheard[w] + if r.announcing == Some(w) then 1 else 0
  {
    AnnouncedRun(EmptyRoster(workers), capacity, run, w);
  }

  ghost predicate Asked(o: Order, run: seq<Move>) { exists j :: 0 <= j < |run| && run[j] == Give(o.worker, o.client) }

  lemma {:induction false} OrdersWereAsked(r: Roster, capacity: nat, run: seq<Move>)
    requires RosterShape(r)
    ensures var e := RosterRun(r, capacity, run);
            r.given <= e.given && forall k | |r.given| <= k < |e.given| :: Asked(e.given[k], run)
    decreases |run|
  {
    if run != [] {
      var next := RosterStep(r, capacity, run[0]);
      OrdersWereAsked(next, capacity, run[1..]);
      var e := RosterRun(r, capacity, run);
      forall k | |r.given| <= k < |e.given| ensures Asked(e.given[k], run) {
        if k < |next.given| {
          assert run[0] == Give(e.given[k].worker, e.given[k].client);
        } else {
          var j :| 0 <= j < |run[1..]| && run[1..][j] == Give(e.given[k].worker, e.given[k].client);
          assert run[j + 1] == run[1..][j];
        }
      }
    }
  }

  /** A worker only ever takes on a client that was assigned to it. */
  lemma NobodyElsesClient(workers: nat, capacity: nat, run: seq<Move>, k: nat)
    requires k < |RosterRun(EmptyRoster(workers), capacity, run).taken|
    ensures var (w, client) := RosterRun(EmptyRoster(workers), capacity, run).taken[k]; Asked(Order(w, true, client), run)
  {
    var r := RosterRun(EmptyRoster(workers), capacity, run);
    NothingUp(workers);
    RosterRunKeeps(EmptyRoster(workers), capacity, run);
    OrdersWereAsked(EmptyRoster(workers), capacity, run);
    var i := MatchOf(r.fetched, r.poppers, k);
    assert r.fetched[i] in multiset(r.fetched) + multiset(r.queue);
    assert r.fetched[i] in r.given;
  }

  lemma {:induction false} MatchOf(fetched: seq<Order>, poppers: seq<nat>, k: nat) returns (i: nat)
    requires |poppers| == |fetched| && k < |Matches(fetched, poppers)|
    ensures i < |fetched| && Matches(fetched, poppers)[k] == (fetched[i].worker, fetched[i].client)
  {
    var n := |fetched| - 1;
    var before := Matches(fetched[..n], poppers[..n]);
    if k < |before| {
      i := MatchOf(fetched[..n], poppers[..n], k);
    } else {
      i := n;
    }
  }

  /** A worker reads its whole counter and pops once: of two clients announced to it in between, one is not served. */
  lemma TwoAnnouncedOneServed(workers: nat, capacity: nat, a: int, b: int) returns (run: seq<Move>)
    requires workers >= 1 && capacity >= 2
    ensures var r := RosterRun(EmptyRoster(workers), capacity, run);
            AllAsleep(r) && r.taken == [(0, a)] && r.queue == [Order(0, true, b)] && Unread(r) == 0
  {
    var r0 := EmptyRoster(workers);
    NothingUp(workers);
    run := [Launch(0), Give(0, a), Tell, Give(0, b), Tell, Hear(0), Fetch(0, 0)];
    var r1 := RosterStep(r0, capacity, Launch(0));
    assert r1.counters == r0.counters && r1.unheard == r0.unheard;
    var r2 := RosterStep(RosterStep(r1, capacity, Give(0, a)), capacity, Tell);
    var r3 := RosterStep(RosterStep(r2, capacity, Give(0, b)), capacity, Tell);
    assert r3.queue == [Order(0, true, a), Order(0, true, b)] && r3.counters == r0.counters[0 := 2];
    HeardAndFetched(r3, capacity);
    assert r0.counters[0 := 2][0 := 0] == r0.counters && r0.reading[0 := false] == r0.reading;
    SevenMoves(r0, capacity, run);
  }

  lemma HeardAndFetched(r: Roster, capacity: nat)
    requires RosterShape(r) && |r.counters| > 0 && !r.ended[0] && !r.reading[0] && r.counters[0] > 0
    requires |r.queue| == 2 && r.queue[0].accept && r.queue[0].worker == 0
    ensures var e := RosterStep(RosterStep(r, capacity, Hear(0)), capacity, Fetch(0, 0));
            && e.queue == [r.queue[1]] && e.counters == r.counters[0 := 0] && e.reading == r.reading[0 := false]
            && e.taken == r.taken + [(0, r.queue[0].client)] && e.announcing == r.announcing && e.unheard == r.unheard
            && e.ended == r.ended
  {
    var h := RosterStep(r, capacity, Hear(0));
    assert h.reading == r.reading[0 := true] && h.queue == r.queue;
    assert h.queue[..0] + h.queue[1..] == [r.queue[1]];
    assert h.reading[0 := false] == r.reading[0 := false];
  }

  /** A worker launched anew has a new counter: it never hears of a client announced to the one before. */
  lemma LeftBehindAtLaunch(workers: nat, capacity: nat, a: int) returns (run: seq<Move>)
    requires workers >= 1 && capacity >= 1
    ensures var r := RosterRun(EmptyRoster(workers), capacity, run);
            && AllAsleep(r) && |r.ended| == workers && !r.ended[0]
            && r.taken == [] && r.queue == [Order(0, true, a)] && Unread(r) == 1
  {
    var r0 := EmptyRoster(workers);
    NothingUp(workers);
    run := [Launch(0), Give(0, a), Tell, End(0), Launch(0), Tell, Tell];
    var r1 := RosterStep(r0, capacity, Launch(0));
    assert r1.counters == r0.counters && r1.unheard == r0.unheard;
    var r2 := RosterStep(RosterStep(r1, capacity, Give(0, a)), capacity, Tell);
    var r3 := RosterStep(RosterStep(r2, capacity, End(0)), capacity, Launch(0));
    assert r3.counters == r0.counters && r3.unheard == r0.unheard[0 := 1];
    SumUpdate(r0.unheard, 0, 1);
    SevenMoves(r0, capacity, run);
  }

  lemma NextMove(r: Roster, capacity: nat, run: seq<Move>, i: nat)
    requires RosterShape(r) && i < |run|
    ensures RosterRun(r, capacity, run[i..]) == RosterRun(RosterStep(r, capacity, run[i]), capacity, run[i + 1..])
  {
    assert run[i..][1..] == run[i + 1..];
  }

  lemma SevenMoves(r: Roster, capacity: nat, run: seq<Move>)
    requires RosterShape(r) && |run| == 7
    ensures var r3 := RosterStep(RosterStep(RosterStep(r, capacity, run[0]), capacity, run[1]), capacity, run[2]);
            var r5 := RosterStep(RosterStep(r3, capacity, run[3]), capacity, run[4]);
            RosterRun(r, capacity, run) == RosterStep(RosterStep(r5, capacity, run[5]), capacity, run[6])
  {
    assert run[0..] == run;
    NextMove(r, capacity, run, 0);
    var r1 := RosterStep(r, capacity, run[0]);
    NextMove(r1, capacity, run, 1);
    var r2 := RosterStep(r1, capacity, run[1]);
    NextMove(r2, capacity, run, 2);
    var r3 := RosterStep(r2, capacity, run[2]);
    NextMove(r3, capacity, run, 3);
    var r4 := RosterStep(r3, capacity, run[3]);
    NextMove(r4, capacity, run, 4);
    var r5 := RosterStep(r4, capacity, run[4]);
    NextMove(r5, capacity, run, 5);
    NextMove(RosterStep(r5, capacity, run[5]), capacity, run, 6);
  }
}
