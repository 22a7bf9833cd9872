/** The slot table and the load balancer side by side: with a table of K * C slots, when the workers' client
    counts tell the truth about the clients connected. */
module Seating {
  import opened Wrappers
  import opened Resources
  import opened ClientTable
  import L = LoadBalancer
  import opened Broadcast

  /** Handling this note makes a client leave. */
  ghost predicate Departs(w: World, m: Note) {
    Ids(w.t.slots) != [] && m.fields.action == ActionName(CL_DISCONNECTED)
  }

  /** A departure takes one connection and one count off; any other note leaves both alone. */
  lemma HandleCounts(w: World, queueSize: nat, m: Note)
    requires m.thread < |w.p.workers|
    ensures var (t', p', result) := Handle(w.t, w.p, queueSize, m);
            result == Done ==>
              if Departs(w, m) then
                && t'.connections == w.t.connections - 1
                && L.Disconnect(w.p, m.thread) == Some(p')
              else t'.connections == w.t.connections && p' == w.p
  {
  }

  ghost predicate Full(w: World) { w.t.connections == |w.t.slots| }

  ghost predicate CountsMatch(w: World) { L.Total(w.p.workers) == w.t.connections }

  /** A connection that finds the table full meets a ceiling that is exactly the limit; one that finds a slot does
      not have a running worker overwritten. */
  ghost predicate Seated(w: World, C: int, op: Op) {
    op.Accepting? ==> if Full(w) then w.p.maxClients == C else !L.Overwrites(w.p)
  }

  ghost predicate AlwaysSeated(w: World, C: int, queueSize: nat, ops: seq<Op>)
    requires PossibleRun(w, C, queueSize, ops)
    decreases |ops|
  {
    ops == [] || (Seated(w, C, ops[0]) && AlwaysSeated(Do(w, C, queueSize, ops[0]), C, queueSize, ops[1..]))
  }

  ghost predicate CountsAlwaysMatch(w: World, C: int, queueSize: nat, ops: seq<Op>)
    requires PossibleRun(w, C, queueSize, ops)
    decreases |ops|
  {
    CountsMatch(w) && (ops == [] || CountsAlwaysMatch(Do(w, C, queueSize, ops[0]), C, queueSize, ops[1..]))
  }

  ghost predicate SeatInv(w: World, K: nat, C: int) {
    && TableInv(w.t) && |w.t.slots| == K * C
    && L.Sound(w.p) && |w.p.workers| == K
    && CountsMatch(w) && L.WithinLimit(w.p, C)
    && (!Full(w) ==> w.p.maxClients <= C)
  }

  /** The table is full exactly when every worker has its C clients. */
  lemma FullIffAllAtLimit(w: World, K: nat, C: int)
    requires SeatInv(w, K, C) && K >= 1 && C >= 1
    ensures Full(w) <==> L.AllAtLimit(w.p, C) && w.p.launched == K
    ensures w.t.connections <= K * C
  {
    L.TotalAtMost(w.p.workers, C);
    L.RunningBounds(w.p.workers);
    if Full(w) {
      assert forall i | 0 <= i < K :: L.Clients(w.p.workers[i]) == C;
      assert w.p.workers[0].Some?;
      assert w.p.workers[K - 1].Some?;
    }
    if L.AllAtLimit(w.p, C) && w.p.launched == K {
      assert forall i | 0 <= i < K :: w.p.workers[i].Some? && L.Clients(w.p.workers[i]) == C;
    }
  }

  lemma ConnectionsAtMost(w: World)
    requires TableInv(w.t)
    ensures w.t.connections <= |w.t.slots|
  {
    OccupiedAll(w.t.slots);
  }

  /** A connection keeps the counts right exactly when it is seated; and as long as there is a free slot it is
      not refused. */
  lemma AcceptingKeepsSeats(w: World, K: nat, C: int, queueSize: nat, fd: nat, color: int, h: bool)
    requires SeatInv(w, K, C) && K >= 1 && 1 <= C < L.INT_MAX
    ensures var w' := Do(w, C, queueSize, Accepting(fd, color, h));
            && (CountsMatch(w') <==> Seated(w, C, Accepting(fd, color, h)))
            && (Seated(w, C, Accepting(fd, color, h)) ==> SeatInv(w', K, C))
    ensures !Full(w) ==> !L.Connect(w.p, C, h).1.ServerFull? && !L.Connect(w.p, C, h).1.Undefined?
  {
    FullIffAllAtLimit(w, K, C);
    AcceptKeepsTable(w.t, fd, color);
    L.JoinCountsIff(w.p, C, h, C);
    L.RunningBounds(w.p.workers);
    L.RefusedIff(w.p, C, h);
    L.JoinWithinLimitIff(w.p, C, h);
    L.LeastIsLimit(w.p, C);
  }

  lemma ListeningKeepsSeats(w: World, K: nat, C: int, queueSize: nat, m: Note)
    requires SeatInv(w, K, C) && C >= 1 && Possible(w, queueSize, Listening(m))
    ensures SeatInv(Do(w, C, queueSize, Listening(m)), K, C)
  {
    HandleEffect(w.t, w.p, queueSize, m);
    HandleCounts(w, queueSize, m);
    ConnectionsAtMost(w);
    if Departs(w, m) {
      L.LeaveIsSound(w.p, C, m.thread);
      var q := Do(w, C, queueSize, Listening(m)).p;
      var i := L.MaxAttained(q.workers);
      assert forall j | 0 <= j < K :: L.Clients(q.workers[j]) <= L.Clients(w.p.workers[j]) <= C;
      if i >= 0 { assert L.Clients(q.workers[i]) == q.maxClients; }
    }
  }

  lemma RecordStepKeepsSeats(w: World, K: nat, C: int, queueSize: nat, op: Op)
    requires SeatInv(w, K, C) && Possible(w, queueSize, op) && (op.Draining? || op.Updating?)
    ensures SeatInv(Do(w, C, queueSize, op), K, C)
  {
    SameOccupied(w.t.slots, Do(w, C, queueSize, op).t.slots);
  }

  lemma {:induction false} SeatsInRun(w: World, K: nat, C: int, queueSize: nat, ops: seq<Op>)
    requires SeatInv(w, K, C) && K >= 1 && 1 <= C < L.INT_MAX
    requires PossibleRun(w, C, queueSize, ops)
    ensures CountsAlwaysMatch(w, C, queueSize, ops) <==> AlwaysSeated(w, C, queueSize, ops)
    ensures AlwaysSeated(w, C, queueSize, ops) ==> SeatInv(After(w, C, queueSize, ops), K, C)
    decreases |ops|
  {
    if ops != [] {
      var w' := Do(w, C, queueSize, ops[0]);
      match ops[0] {
        case Accepting(fd, color, h) => AcceptingKeepsSeats(w, K, C, queueSize, fd, color, h);
        case Listening(m) => ListeningKeepsSeats(w, K, C, queueSize, m);
        case _ => RecordStepKeepsSeats(w, K, C, queueSize, ops[0]);
      }
      if CountsMatch(w') { SeatsInRun(w', K, C, queueSize, ops[1..]); }
    }
  }

  /** K workers, a limit of C and a table of K * C slots; workers emptying in any order, handoffs succeeding or not.
      In every state the counts add up to the clients connected exactly when no connection ever finds the table
      full with the ceiling off the limit, and none has a running worker overwritten. Then no worker ever exceeds
      the limit, and nobody who found a slot is refused. */
  lemma CountsMatchIffSeated(K: nat, C: int, queueSize: nat, ops: seq<Op>)
    requires K >= 1 && 1 <= C < L.INT_MAX
    requires PossibleRun(Start(K * C, K), C, queueSize, ops)
    ensures var w0 := Start(K * C, K);
            CountsAlwaysMatch(w0, C, queueSize, ops) <==> AlwaysSeated(w0, C, queueSize, ops)
    ensures var w0 := Start(K * C, K);
            AlwaysSeated(w0, C, queueSize, ops) ==>
              var w := After(w0, C, queueSize, ops);
              && L.WithinLimit(w.p, C)
              && (!Full(w) ==> forall h :: !L.Connect(w.p, C, h).1.ServerFull? && !L.Connect(w.p, C, h).1.Undefined?)
  {
    var w0 := Start(K * C, K);
    OccupiedAll(w0.t.slots);
    L.FreshIsSound(K);
    SeatsInRun(w0, K, C, queueSize, ops);
    if AlwaysSeated(w0, C, queueSize, ops) {
      var w := After(w0, C, queueSize, ops);
      forall h ensures !Full(w) ==> !L.Connect(w.p, C, h).1.ServerFull? && !L.Connect(w.p, C, h).1.Undefined? {
        AcceptingKeepsSeats(w, K, C, queueSize, 0, 0, h);
      }
    }
  }

  // ---------------------------------------------------------------- the calls made for nobody

  /** `n` connections to a fresh server. */
  ghost function Arrived(K: nat, C: nat, n: nat): World {
    if n == 0 then Start(K * C, K) else Do(Arrived(K, C, n - 1), C, 0, Accepting(0, 0, true))
  }

  lemma ArrivalCounts(t: Table)
    requires TableInv(t)
    ensures var t' := Accept(t, 0, 0).0;
            && TableInv(t') && |t'.slots| == |t.slots|
            && t'.connections == if t.connections == |t.slots| then t.connections else t.connections + 1
  {
    AcceptKeepsTable(t, 0, 0);
  }

  lemma {:induction false} ArrivedCounts(K: nat, C: nat, n: nat)
    ensures var w := Arrived(K, C, n);
            && TableInv(w.t) && |w.t.slots| == K * C && w.p == L.AfterConnects(K, C, n)
            && w.t.connections == if n < K * C then n else K * C
  {
    if n == 0 {
      OccupiedAll(Start(K * C, K).t.slots);
    } else {
      ArrivedCounts(K, C, n - 1);
      var w := Arrived(K, C, n - 1);
      ArrivalCounts(w.t);
      assert Arrived(K, C, n).t == Accept(w.t, 0, 0).0;
    }
  }

  /** Connections K * C + 1 and K * C + 2 find the table full and are closed with (-1, -1). The load balancer is
      called all the same: the first call is refused, the second counts a client that does not exist, on
      worker 0, above the limit. */
  lemma NobodyIsCounted(K: nat, C: nat)
    requires K >= 1 && 1 <= C < L.INT_MAX - 1
    ensures var w, w1, w2 := Arrived(K, C, K * C), Arrived(K, C, K * C + 1), Arrived(K, C, K * C + 2);
            && Accept(w.t, 0, 0).1 == (-1, -1) && L.Connect(w.p, C, true).1 == L.ServerFull
            && Accept(w1.t, 0, 0).1 == (-1, -1) && L.Connect(w1.p, C, true).1 == L.Assigned(0)
            && |w2.p.workers| > 0 && w2.p.workers[0] == Some(C + 1) && w2.t.connections == K * C
  {
    ArrivedCounts(K, C, K * C);
    ArrivedCounts(K, C, K * C + 1);
    ArrivedCounts(K, C, K * C + 2);
    AcceptKeepsTable(Arrived(K, C, K * C).t, 0, 0);
    AcceptKeepsTable(Arrived(K, C, K * C + 1).t, 0, 0);
    L.AcceptedAfterRefusal(K, C);
  }
}
