/** How the listener spreads clients over worker threads: launching, assigning, refusing, and the accounting
    when clients leave. K is the number of worker slots and C the most clients a worker may have. */
module LoadBalancer {
  import opened Wrappers
  import Bits

  const INT_MAX: int := 0x7fff_ffff

  /** The client count of each running worker, the current ceiling, and the number of launched workers. */
  datatype Pool = Pool(workers: seq<Option<int>>, maxClients: int, launched: int)

  /** What a call reports. `HandoffFailed` is the exception thrown when the new client cannot be passed on to
      its worker; `Undefined` marks dereferencing an empty slot or leaving the array. */
  datatype Outcome = Launched(worker: int) | Assigned(worker: int) | HandoffFailed(worker: int) | ServerFull | Undefined

  // ---------------------------------------------------------------- least and greatest count

  /** The scan of `get_min_and_idx` from slot `i` on. */
  function MinFrom(ws: seq<Option<int>>, i: nat, min: int, idx: int): (int, int)
    requires i <= |ws|
    decreases |ws| - i
  {
    if i == |ws| then (min, idx)
    else if ws[i].Some? && ws[i].value < min then MinFrom(ws, i + 1, ws[i].value, i)
    else MinFrom(ws, i + 1, min, idx)
  }

  function MaxFrom(ws: seq<Option<int>>, i: nat, max: int, idx: int): (int, int)
    requires i <= |ws|
    decreases |ws| - i
  {
    if i == |ws| then (max, idx)
    else if ws[i].Some? && ws[i].value > max then MaxFrom(ws, i + 1, ws[i].value, i)
    else MaxFrom(ws, i + 1, max, idx)
  }

  function MinAndIdx(ws: seq<Option<int>>): (int, int) { MinFrom(ws, 0, INT_MAX, -1) }

  function MaxAndIdx(ws: seq<Option<int>>): (int, int) { MaxFrom(ws, 0, 0, -1) }

  /** The scan so far has found the first slot with the least count below `INT_MAX`, if there is one. */
  ghost predicate FirstLeast(ws: seq<Option<int>>, n: nat, min: int, idx: int)
    requires n <= |ws|
  {
    && -1 <= idx < n
    && (idx == -1 ==> min == INT_MAX)
    && (idx >= 0 ==> ws[idx] == Some(min) && min < INT_MAX)
    && (forall j | 0 <= j < n && ws[j].Some? :: min <= ws[j].value)
    && (forall j | 0 <= j < idx && ws[j].Some? :: min < ws[j].value)
    && (idx == -1 ==> forall j | 0 <= j < n && ws[j].Some? :: ws[j].value >= INT_MAX)
  }

  ghost predicate FirstGreatest(ws: seq<Option<int>>, n: nat, max: int, idx: int)
    requires n <= |ws|
  {
    && -1 <= idx < n
    && (idx == -1 ==> max == 0)
    && (idx >= 0 ==> ws[idx] == Some(max) && max > 0)
    && (forall j | 0 <= j < n && ws[j].Some? :: ws[j].value <= max)
    && (forall j | 0 <= j < idx && ws[j].Some? :: ws[j].value < max)
  }

  lemma {:induction false} MinFromIsFirstLeast(ws: seq<Option<int>>, i: nat, min: int, idx: int)
    requires i <= |ws| && FirstLeast(ws, i, min, idx)
    ensures var (m, k) := MinFrom(ws, i, min, idx); FirstLeast(ws, |ws|, m, k)
    decreases |ws| - i
  {
    if i < |ws| {
      if ws[i].Some? && ws[i].value < min {
        MinFromIsFirstLeast(ws, i + 1, ws[i].value, i);
      } else {
        MinFromIsFirstLeast(ws, i + 1, min, idx);
      }
    }
  }

  lemma {:induction false} MaxFromIsFirstGreatest(ws: seq<Option<int>>, i: nat, max: int, idx: int)
    requires i <= |ws| && FirstGreatest(ws, i, max, idx)
    ensures var (m, k) := MaxFrom(ws, i, max, idx); FirstGreatest(ws, |ws|, m, k)
    decreases |ws| - i
  {
    if i < |ws| {
      if ws[i].Some? && ws[i].value > max {
        MaxFromIsFirstGreatest(ws, i + 1, ws[i].value, i);
      } else {
        MaxFromIsFirstGreatest(ws, i + 1, max, idx);
      }
    }
  }

  /** Only one answer is first and least. */
  lemma FirstLeastIsUnique(ws: seq<Option<int>>, m: int, k: int, m': int, k': int)
    requires FirstLeast(ws, |ws|, m, k) && FirstLeast(ws, |ws|, m', k')
    ensures m == m' && k == k'
  {
    if k >= 0 && k' >= 0 {
      assert ws[k].Some? && ws[k'].Some?;
    }
  }

  lemma FirstGreatestIsUnique(ws: seq<Option<int>>, m: int, k: int, m': int, k': int)
    requires FirstGreatest(ws, |ws|, m, k) && FirstGreatest(ws, |ws|, m', k')
    ensures m == m' && k == k'
  {
    if k >= 0 && k' >= 0 {
      assert ws[k].Some? && ws[k'].Some?;
    }
  }

  method GetMinAndIdx(arr: array<Option<int>>) returns (min: int, minIdx: int)
    ensures FirstLeast(arr[..], arr.Length, min, minIdx)
    ensures (min, minIdx) == MinAndIdx(arr[..])
  {
    min, minIdx := INT_MAX, -1;
    for idx := 0 to arr.Length
      invariant FirstLeast(arr[..], idx, min, minIdx)
    {
      if arr[idx].Some? && arr[idx].value < min {
        min, minIdx := arr[idx].value, idx;
      }
    }
    MinFromIsFirstLeast(arr[..], 0, INT_MAX, -1);
    var (m, k) := MinAndIdx(arr[..]);
    FirstLeastIsUnique(arr[..], min, minIdx, m, k);
  }

  method GetMaxAndIdx(arr: array<Option<int>>) returns (max: int, maxIdx: int)
    ensures FirstGreatest(arr[..], arr.Length, max, maxIdx)
    ensures (max, maxIdx) == MaxAndIdx(arr[..])
  {
    max, maxIdx := 0, -1;
    for idx := 0 to arr.Length
      invariant FirstGreatest(arr[..], idx, max, maxIdx)
    {
      if arr[idx].Some? && arr[idx].value > max {
        max, maxIdx := arr[idx].value, idx;
      }
    }
    MaxFromIsFirstGreatest(arr[..], 0, 0, -1);
    var (m, k) := MaxAndIdx(arr[..]);
    FirstGreatestIsUnique(arr[..], max, maxIdx, m, k);
  }

  // ---------------------------------------------------------------- connecting and disconnecting

  /** emplace_new_worker: fills slot `launched`, then adds a client to slot `thread`. */
  function Emplace(p: Pool, thread: int): (Pool, Outcome) {
    if !(0 <= p.launched < |p.workers|) then (p, Undefined)
    else
      var ws := p.workers[p.launched := Some(0)];
      if !(0 <= thread < |ws|) || ws[thread].None? then (p, Undefined)
      else
        (Pool(ws[thread := Some(ws[thread].value + 1)], p.maxClients, p.launched + 1), Launched(thread))
  }

  function Assign(p: Pool, idx: int, handoff: bool): (Pool, Outcome)
    requires 0 <= idx < |p.workers| && p.workers[idx].Some?
  {
    (p.(workers := p.workers[idx := Some(p.workers[idx].value + 1)]),
     if handoff then Assigned(idx) else HandoffFailed(idx))
  }

  lemma MinIdxInRange(ws: seq<Option<int>>)
    ensures var (m, k) := MinAndIdx(ws); FirstLeast(ws, |ws|, m, k)
  {
    MinFromIsFirstLeast(ws, 0, INT_MAX, -1);
  }

  /** process_new_client; `handoff` says whether passing the client on to its worker succeeds. */
  function Connect(p: Pool, limit: int, handoff: bool): (r: (Pool, Outcome))
    ensures |r.0.workers| == |p.workers|
  {
    if p.launched == 0 then Emplace(p, 0)
    else
      var (min, idx) := MinAndIdx(p.workers);
      MinIdxInRange(p.workers);
      if idx < 0 then Emplace(p, 0)
      else if min < p.maxClients then Assign(p, idx, handoff)
      else if p.launched == |p.workers| then
        var q := p.(maxClients := p.maxClients + 1);
        if q.maxClients > limit then (q, ServerFull) else Assign(q, idx, handoff)
      else if p.launched >= |p.workers| then (p, ServerFull)
      else Emplace(p, p.launched)
  }

  /** worker_client_disconnect; None is the thread-managing exception. */
  function Disconnect(p: Pool, thread: nat): Option<Pool>
    requires thread < |p.workers|
  {
    if p.workers[thread].None? || p.workers[thread].value <= 0 then None
    else
      var q := if p.workers[thread].value == 1
               then Pool(p.workers[thread := None], p.maxClients, p.launched - 1)
               else p.(workers := p.workers[thread := Some(p.workers[thread].value - 1)]);
      Some(q.(maxClients := MaxAndIdx(q.workers).0))
  }

  class ServerThreadManager {
    const limit: int
    const workerThreads: array<Option<int>>
    var maxClientsPerThread: int
    var nrOfLaunchedThreads: int

    ghost function View(): Pool
      reads this, workerThreads
    {
      Pool(workerThreads[..], maxClientsPerThread, nrOfLaunchedThreads)
    }

    constructor (threads: nat, clientsPerThread: int)
      ensures View() == Fresh(threads) && limit == clientsPerThread && fresh(workerThreads)
    {
      limit := clientsPerThread;
      workerThreads := new Option<int>[threads](_ => None);
      maxClientsPerThread, nrOfLaunchedThreads := 1, 0;
    }

    method EmplaceNewWorker(thread: int) returns (o: Outcome)
      modifies this`nrOfLaunchedThreads, workerThreads
      ensures (View(), o) == Emplace(old(View()), thread)
    {
      var slot := nrOfLaunchedThreads;
      if slot < 0 || slot >= workerThreads.Length { return Undefined; }
      if thread != slot && (thread < 0 || thread >= workerThreads.Length || workerThreads[thread].None?) {
        return Undefined;
      }
      workerThreads[slot] := Some(0);
      workerThreads[thread] := Some(workerThreads[thread].value + 1);
      nrOfLaunchedThreads := nrOfLaunchedThreads + 1;
      return Launched(thread);
    }

    method AssignClientToWorker(idx: int, handoff: bool) returns (o: Outcome)
      requires 0 <= idx < workerThreads.Length && workerThreads[idx].Some?
      modifies workerThreads
      ensures (View(), o) == Assign(old(View()), idx, handoff)
    {
      workerThreads[idx] := Some(workerThreads[idx].value + 1);
      o := if handoff then Assigned(idx) else HandoffFailed(idx);
    }

    method ProcessNewClient(handoff: bool) returns (o: Outcome)
      modifies this`nrOfLaunchedThreads, this`maxClientsPerThread, workerThreads
      ensures (View(), o) == Connect(old(View()), limit, handoff)
    {
      if nrOfLaunchedThreads == 0 {
        o := EmplaceNewWorker(0);
        return;
      }
      var min, minIdx := GetMinAndIdx(workerThreads);
      if minIdx < 0 {
        o := EmplaceNewWorker(0);
        return;
      }
      if min < maxClientsPerThread {
        o := AssignClientToWorker(minIdx, handoff);
        return;
      }
      if nrOfLaunchedThreads == workerThreads.Length {
        maxClientsPerThread := maxClientsPerThread + 1;
        if maxClientsPerThread > limit {
          return ServerFull;
        }
        o := AssignClientToWorker(minIdx, handoff);
        return;
      }
      if nrOfLaunchedThreads >= workerThreads.Length {
        return ServerFull;
      }
      o := EmplaceNewWorker(nrOfLaunchedThreads);
    }

    method WorkerClientDisconnect(thread: nat) returns (ok: bool)
      requires thread < workerThreads.Length
      modifies this`nrOfLaunchedThreads, this`maxClientsPerThread, workerThreads
      ensures ok == Disconnect(old(View()), thread).Some?
      ensures View() == if ok then Disconnect(old(View()), thread).value else old(View())
      ensures ok ==> Clients(workerThreads[thread]) == Clients(old(workerThreads[thread])) - 1
      ensures forall i | 0 <= i < workerThreads.Length && i != thread :: workerThreads[i] == old(workerThreads[i])
    {
      if workerThreads[thread].None? {
        return false;
      }
      var currentConnections := workerThreads[thread].value;
      if currentConnections <= 0 {
        return false;
      }
      if currentConnections == 1 {
        workerThreads[thread] := None;
        nrOfLaunchedThreads := nrOfLaunchedThreads - 1;
      } else {
        workerThreads[thread] := Some(currentConnections - 1);
      }
      var max, maxIdx := GetMaxAndIdx(workerThreads);
      maxClientsPerThread := max;
      return true;
    }
  }

  function Fresh(threads: nat): Pool { Pool(seq(threads, _ => None), 1, 0) }

  // ---------------------------------------------------------------- connecting only

  /** `n` calls in a row, every handoff succeeding. */
  ghost function AfterConnects(K: nat, C: int, n: nat): Pool {
    if n == 0 then Fresh(K) else Connect(AfterConnects(K, C, n - 1), C, true).0
  }

  /** The outcome of call `n + 1`. */
  ghost function NextOutcome(K: nat, C: int, n: nat): Outcome {
    Connect(AfterConnects(K, C, n), C, true).1
  }

  /** `q` full rounds over the K workers and `r` clients of the next one. */
  ghost predicate Spread(p: Pool, K: nat, q: nat, r: nat) {
    && |p.workers| == K
    && (forall i | 0 <= i < K :: p.workers[i] == if q == 0 && i >= r then None else Some(if i < r then q + 1 else q))
    && p.launched == (if q == 0 then r else K)
    && p.maxClients == (if q == 0 || r > 0 then q + 1 else q)
  }

  /** One more client: the next worker of the round gets it, unless the round is full at the limit. */
  lemma SpreadStep(p: Pool, K: nat, C: int, q: nat, r: nat)
    requires Spread(p, K, q, r) && r < K && q <= C < INT_MAX && C >= 1
    ensures var (p', o) := Connect(p, C, true);
            if q == C then
              if r == 0 then o == ServerFull && p' == p.(maxClients := C + 1) else true
            else
              && o == (if q == 0 then Launched(r) else Assigned(r))
              && (if r + 1 < K then Spread(p', K, q, r + 1) else Spread(p', K, q + 1, 0))
  {
    var (m, k) := MinAndIdx(p.workers);
    MinIdxInRange(p.workers);
    if q > 0 {
      FirstLeastIsUnique(p.workers, m, k, q, r);
    } else if r > 0 {
      FirstLeastIsUnique(p.workers, m, k, 1, 0);
    }
  }

  lemma Rounds(n: nat, K: nat, q: nat, r: nat)
    requires K > 0 && n == q * K + r && r < K
    ensures n / K == q && n % K == r
  {
    Bits.QuotientIs(n, K, q, r);
  }

  /** Which round client `n` belongs to, and that the round is within the limit. */
  lemma RoundOf(n: nat, K: nat, C: nat) returns (q: nat, r: nat)
    requires K > 0 && n <= K * C
    ensures n == q * K + r && r < K && q == n / K && r == n % K
    ensures n < K * C ==> q < C
    ensures n == K * C ==> q == C && r == 0
  {
    q, r := n / K, n % K;
    if n == K * C {
      Rounds(n, K, C, 0);
    } else if q >= C {
      assert false;
    }
  }

  lemma {:induction false} ConnectsSpread(K: nat, C: nat, n: nat, q: nat, r: nat)
    requires K >= 1 && 1 <= C < INT_MAX
    requires n == q * K + r && r < K && (q < C || (q == C && r == 0))
    ensures Spread(AfterConnects(K, C, n), K, q, r)
    decreases q, r
  {
    if r > 0 {
      ConnectsSpread(K, C, n - 1, q, r - 1);
      SpreadStep(AfterConnects(K, C, n - 1), K, C, q, r - 1);
    } else if q > 0 {
      assert (q - 1) * K == q * K - K;
      ConnectsSpread(K, C, n - 1, q - 1, K - 1);
      SpreadStep(AfterConnects(K, C, n - 1), K, C, q - 1, K - 1);
    }
  }

  /** The exact state after `n` connections and the exact outcome of the next: clients go round-robin, the
      first K each to a new worker, no two workers ever differ by more than one client, the ceiling is the
      greatest count, and the first refusal is that of call K * C + 1. */
  lemma ConnectsAreBalanced(K: nat, C: nat, n: nat)
    requires K >= 1 && 1 <= C < INT_MAX && n <= K * C
    ensures var p := AfterConnects(K, C, n);
            && |p.workers| == K
            && (forall i | 0 <= i < K ::
                  p.workers[i] == (if n < K && i >= n then None else Some(n / K + if i < n % K then 1 else 0)))
            && (n >= 1 ==> p.maxClients == MaxAndIdx(p.workers).0)
            && NextOutcome(K, C, n) == (if n < K then Launched(n) else if n < K * C then Assigned(n % K) else ServerFull)
  {
    var q, r := RoundOf(n, K, C);
    ConnectsSpread(K, C, n, q, r);
    var p := AfterConnects(K, C, n);
    SpreadStep(p, K, C, q, r);
    if n < K { Rounds(n, K, 0, n); }
    if q == 0 { assert q * K == 0; }
    MaxFromIsFirstGreatest(p.workers, 0, 0, -1);
    if n >= 1 { assert p.workers[0].Some?; }
  }

  /** The refusal itself raises the ceiling, so the very next call is not refused and counts a client more
      than the limit on worker 0. */
  lemma AcceptedAfterRefusal(K: nat, C: nat)
    requires K >= 1 && 1 <= C < INT_MAX - 1
    ensures NextOutcome(K, C, K * C) == ServerFull
    ensures NextOutcome(K, C, K * C + 1) == Assigned(0)
    ensures AfterConnects(K, C, K * C + 2).workers != [] && AfterConnects(K, C, K * C + 2).workers[0] == Some(C + 1)
  {
    ConnectsAreBalanced(K, C, K * C);
    ConnectsSpread(K, C, K * C, C, 0);
    SpreadStep(AfterConnects(K, C, K * C), K, C, C, 0);
    var p := AfterConnects(K, C, K * C + 1);
    var (m, k) := MinAndIdx(p.workers);
    MinIdxInRange(p.workers);
    FirstLeastIsUnique(p.workers, m, k, C, 0);
  }

  // ---------------------------------------------------------------- connecting and disconnecting

  function Total(ws: seq<Option<int>>): int {
    if ws == [] then 0 else (if ws[0].Some? then ws[0].value else 0) + Total(ws[1..])
  }

  function Clients(w: Option<int>): int { if w.Some? then w.value else 0 }

  lemma {:induction false} TotalUpdate(ws: seq<Option<int>>, i: nat, w: Option<int>)
    requires i < |ws|
    ensures Total(ws[i := w]) == Total(ws) - Clients(ws[i]) + Clients(w)
  {
    if i == 0 {
      assert ws[0 := w][1..] == ws[1..];
    } else {
      assert ws[i := w][1..] == ws[1..][i - 1 := w];
      TotalUpdate(ws[1..], i - 1, w);
    }
  }

  lemma {:induction false} TotalAtMost(ws: seq<Option<int>>, C: nat)
    requires forall i | 0 <= i < |ws| :: Clients(ws[i]) <= C
    ensures Total(ws) <= |ws| * C
    ensures Total(ws) == |ws| * C <==> forall i | 0 <= i < |ws| :: Clients(ws[i]) == C
  {
    if ws != [] {
      TotalAtMost(ws[1..], C);
      assert |ws| * C == |ws[1..]| * C + C;
      assert forall i | 0 < i < |ws| :: ws[i] == ws[1..][i - 1];
    }
  }

  /** The running workers fill the first `launched` slots and each has at least one client. */
  ghost predicate LivePrefix(p: Pool) {
    && 0 <= p.launched <= |p.workers|
    && forall i | 0 <= i < |p.workers| ::
         && (p.workers[i].Some? <==> i < p.launched)
         && (p.workers[i].Some? ==> p.workers[i].value >= 1)
  }

  /** A worker that empties keeps the live slots together exactly when it is the highest-numbered one. */
  lemma LeaveKeepsPrefixIff(p: Pool, t: nat)
    requires LivePrefix(p) && t < |p.workers| && p.workers[t].Some?
    ensures Disconnect(p, t).Some?
    ensures LivePrefix(Disconnect(p, t).value) <==> (p.workers[t].value > 1 || t == p.launched - 1)
  {
    var q := Disconnect(p, t).value;
    if p.workers[t].value == 1 && t != p.launched - 1 {
      assert q.workers[p.launched - 1].Some? && p.launched - 1 >= q.launched;
    }
  }

  ghost predicate EachHas(p: Pool, C: int) {
    forall i | 0 <= i < |p.workers| :: p.workers[i] == Some(C)
  }

  /** The books in a run that stays orderly: live slots together, no worker above the limit, and the ceiling
      at the greatest count -- except right after a refusal, which leaves it one above the limit. */
  ghost predicate Accounted(p: Pool, C: int) {
    && LivePrefix(p)
    && (forall i | 0 <= i < |p.workers| :: Clients(p.workers[i]) <= C)
    && (p.launched == 0 ==> 0 <= p.maxClients <= 1)
    && (p.launched > 0 ==>
          p.maxClients == MaxAndIdx(p.workers).0 || (p.maxClients == C + 1 && EachHas(p, C)))
  }

  /** `handoff` says whether a client that needs to be passed on to a running worker gets there. */
  datatype Op = Join(handoff: bool) | Leave(thread: nat)

  /** When an operation keeps the books. A client may join unless the last departure emptied the server (which
      leaves the ceiling at 0) or the last call was a refusal (which leaves it above the limit); a worker may
      lose its last client only if it is the highest-numbered one running. */
  ghost predicate Orderly(p: Pool, C: int, op: Op) {
    EmptiesAtTop(p, op) && (op.Join? ==> 1 <= p.maxClients <= C)
  }

  ghost predicate EmptiesAtTop(p: Pool, op: Op) {
    op.Leave? ==> op.thread < |p.workers| && (p.workers[op.thread] == Some(1) ==> op.thread == p.launched - 1)
  }

  ghost function Do(p: Pool, C: int, op: Op): (q: Pool)
    requires op.Leave? ==> op.thread < |p.workers|
    ensures |q.workers| == |p.workers|
  {
    match op
    case Join(h) => Connect(p, C, h).0
    case Leave(t) => if Disconnect(p, t).Some? then Disconnect(p, t).value else p
  }

  /** How many clients an operation really adds. */
  ghost function Change(p: Pool, C: int, op: Op): int
    requires op.Leave? ==> op.thread < |p.workers|
  {
    match op
    case Join(h) => if Connect(p, C, h).1.ServerFull? then 0 else 1
    case Leave(t) => if Disconnect(p, t).Some? then -1 else 0
  }

  lemma FallbackUnreachable(p: Pool, C: int)
    requires Accounted(p, C) && C < INT_MAX && p.launched > 0
    ensures MinAndIdx(p.workers).1 >= 0
  {
    MinIdxInRange(p.workers);
    assert p.workers[0].Some? && Clients(p.workers[0]) <= C;
  }

  lemma MaxIs(ws: seq<Option<int>>, m: int, i: nat)
    requires i < |ws| && ws[i] == Some(m) && m > 0 && forall j | 0 <= j < |ws| :: Clients(ws[j]) <= m
    ensures MaxAndIdx(ws).0 == m
  {
    MaxFromIsFirstGreatest(ws, 0, 0, -1);
    assert forall j | 0 <= j < |ws| && ws[j].Some? :: ws[j].value == Clients(ws[j]);
  }

  lemma MaxAttained(ws: seq<Option<int>>) returns (i: int)
    ensures forall j | 0 <= j < |ws| :: Clients(ws[j]) <= MaxAndIdx(ws).0
    ensures -1 <= i < |ws| && (i >= 0 ==> ws[i] == Some(MaxAndIdx(ws).0) && MaxAndIdx(ws).0 > 0)
    ensures i == -1 ==> MaxAndIdx(ws).0 == 0
  {
    MaxFromIsFirstGreatest(ws, 0, 0, -1);
    i := MaxAndIdx(ws).1;
  }

  /** The step both kinds of acceptance share: slot `i` goes to `w`, and the ceiling is right afterwards. */
  lemma SlotFilled(p: Pool, q: Pool, C: int, i: nat, w: int, top: nat)
    requires Accounted(p, C) && i < |p.workers| && top < |p.workers| && 1 <= w <= C
    requires q.workers == p.workers[i := Some(w)]
    requires q.launched == (if p.workers[i].None? then p.launched + 1 else p.launched)
    requires p.workers[i].None? ==> i == p.launched
    requires q.workers[top] == Some(q.maxClients)
    requires forall j | 0 <= j < |p.workers| :: Clients(p.workers[j]) <= q.maxClients
    requires w <= q.maxClients
    ensures Accounted(q, C) && Total(q.workers) == Total(p.workers) + w - Clients(p.workers[i])
  {
    TotalUpdate(p.workers, i, Some(w));
    MaxIs(q.workers, q.maxClients, top);
  }

  lemma JoinKeepsBooks(p: Pool, C: int, h: bool)
    requires Accounted(p, C) && 1 <= C < INT_MAX && |p.workers| > 0 && Orderly(p, C, Join(h))
    ensures var (q, o) := Connect(p, C, h);
            && Accounted(q, C) && |q.workers| == |p.workers| && o != Undefined
            && Total(q.workers) == Total(p.workers) + Change(p, C, Join(h))
            && (o == ServerFull <==> EachHas(p, C))
  {
    if p.launched == 0 {
      assert p.workers[0].None?;
      assert p.workers[0 := Some(0)][0 := Some(1)] == p.workers[0 := Some(1)];
      SlotFilled(p, Connect(p, C, h).0, C, 0, 1, 0);
    } else {
      JoinRunning(p, C, h);
    }
  }

  lemma JoinRunning(p: Pool, C: int, h: bool)
    requires Accounted(p, C) && 1 <= C < INT_MAX && p.launched > 0 && Orderly(p, C, Join(h))
    ensures var (q, o) := Connect(p, C, h);
            && Accounted(q, C) && |q.workers| == |p.workers| && o != Undefined
            && Total(q.workers) == Total(p.workers) + Change(p, C, Join(h))
            && (o == ServerFull <==> EachHas(p, C))
  {
    FallbackUnreachable(p, C);
    MinIdxInRange(p.workers);
    var (min, k) := MinAndIdx(p.workers);
    var top := MaxAttained(p.workers);
    var q := Connect(p, C, h).0;
    assert p.workers[0].Some? && Clients(p.workers[0]) >= 1;
    assert p.workers[k] == Some(min);
    if min < p.maxClients {
      SlotFilled(p, q, C, k, min + 1, top);
    } else {
      assert forall i | 0 <= i < p.launched :: Clients(p.workers[i]) == min && p.workers[i] == Some(min);
      if p.launched < |p.workers| {
        var n := p.launched;
        assert p.workers[n].None?;
        assert p.workers[n := Some(0)][n := Some(1)] == p.workers[n := Some(1)];
        SlotFilled(p, q, C, n, 1, top);
      } else if min < C {
        SlotFilled(p, q, C, k, min + 1, k);
      }
    }
  }

  lemma LeaveKeepsBooks(p: Pool, C: int, t: nat)
    requires Accounted(p, C) && C >= 1 && Orderly(p, C, Leave(t))
    ensures var q := Do(p, C, Leave(t));
            && Accounted(q, C) && |q.workers| == |p.workers|
            && Total(q.workers) == Total(p.workers) + Change(p, C, Leave(t))
            && (Disconnect(p, t).Some? <==> p.workers[t].Some?)
            && (Disconnect(p, t).Some? ==> q.maxClients == MaxAndIdx(q.workers).0)
  {
    if p.workers[t].Some? {
      LeaveKeepsPrefixIff(p, t);
      var q := Disconnect(p, t).value;
      TotalUpdate(p.workers, t, q.workers[t]);
      MaxFromIsFirstGreatest(q.workers, 0, 0, -1);
    }
  }

  ghost predicate InRange(K: nat, ops: seq<Op>) {
    forall k | 0 <= k < |ops| && ops[k].Leave? :: ops[k].thread < K
  }

  ghost function After(p: Pool, C: int, ops: seq<Op>): Pool
    requires InRange(|p.workers|, ops)
    decreases |ops|
  {
    if ops == [] then p else After(Do(p, C, ops[0]), C, ops[1..])
  }

  /** Clients accepted minus clients gone. */
  ghost function Present(p: Pool, C: int, ops: seq<Op>): int
    requires InRange(|p.workers|, ops)
    decreases |ops|
  {
    if ops == [] then 0 else Change(p, C, ops[0]) + Present(Do(p, C, ops[0]), C, ops[1..])
  }

  // Any run at all: what the live slots need.

  /** One more client on slot `i`, a running worker's or the first free one. */
  lemma OneMoreKeepsPrefix(p: Pool, q: Pool, i: nat, n: int)
    requires LivePrefix(p) && i < |p.workers| && i <= p.launched
    requires forall j | 0 <= j < |p.workers| :: Clients(p.workers[j]) <= n
    requires q.workers == p.workers[i := Some(Clients(p.workers[i]) + 1)]
    requires q.launched == (if i == p.launched then p.launched + 1 else p.launched)
    ensures LivePrefix(q) && forall j | 0 <= j < |q.workers| :: Clients(q.workers[j]) <= n + 1
    ensures Total(q.workers) == Total(p.workers) + 1
  {
    TotalUpdate(p.workers, i, q.workers[i]);
  }

  lemma RunningHaveMin(p: Pool, n: int)
    requires LivePrefix(p) && p.launched > 0 && n < INT_MAX
    requires forall i | 0 <= i < |p.workers| :: Clients(p.workers[i]) <= n
    ensures var (min, k) := MinAndIdx(p.workers); 0 <= k < p.launched && p.workers[k] == Some(min)
  {
    MinIdxInRange(p.workers);
    assert p.workers[0].Some? && Clients(p.workers[0]) <= n;
  }

  lemma JoinKeepsPrefix(p: Pool, C: int, h: bool, n: int)
    requires LivePrefix(p) && |p.workers| > 0 && 0 <= n < INT_MAX
    requires forall i | 0 <= i < |p.workers| :: Clients(p.workers[i]) <= n
    ensures var (q, o) := Connect(p, C, h);
            && LivePrefix(q) && |q.workers| == |p.workers| && o != Undefined
            && (forall i | 0 <= i < |q.workers| :: Clients(q.workers[i]) <= n + 1)
            && Total(q.workers) == Total(p.workers) + Change(p, C, Join(h))
    ensures p.launched > 0 ==> MinAndIdx(p.workers).1 >= 0
  {
    var (q, o) := Connect(p, C, h);
    var l := p.launched;
    if l > 0 { RunningHaveMin(p, n); }
    if o.Launched? {
      assert p.workers[l := Some(0)][l := Some(1)] == p.workers[l := Some(1)];
      OneMoreKeepsPrefix(p, q, l, n);
    } else if o.Assigned? || o.HandoffFailed? {
      OneMoreKeepsPrefix(p, q, MinAndIdx(p.workers).1, n);
    }
  }

  lemma LeaveKeepsTotal(p: Pool, C: int, t: nat)
    requires LivePrefix(p) && t < |p.workers|
    ensures var q := Do(p, C, Leave(t));
            && (LivePrefix(q) <==> EmptiesAtTop(p, Leave(t)))
            && (forall i | 0 <= i < |q.workers| :: Clients(q.workers[i]) <= Clients(p.workers[i]))
            && Total(q.workers) == Total(p.workers) + Change(p, C, Leave(t))
            && (p.workers[t].Some? ==> q.maxClients == MaxAndIdx(q.workers).0)
  {
    if p.workers[t].Some? {
      LeaveKeepsPrefixIff(p, t);
      var q := Disconnect(p, t).value;
      TotalUpdate(p.workers, t, q.workers[t]);
    }
  }

  ghost predicate AlwaysEmptiesAtTop(p: Pool, C: int, ops: seq<Op>)
    requires InRange(|p.workers|, ops)
    decreases |ops|
  {
    ops == [] || (EmptiesAtTop(p, ops[0]) && AlwaysEmptiesAtTop(Do(p, C, ops[0]), C, ops[1..]))
  }

  ghost predicate AlwaysLivePrefix(p: Pool, C: int, ops: seq<Op>)
    requires InRange(|p.workers|, ops)
    decreases |ops|
  {
    LivePrefix(p) && (ops == [] || AlwaysLivePrefix(Do(p, C, ops[0]), C, ops[1..]))
  }

  lemma {:induction false} PrefixIffTop(p: Pool, C: int, ops: seq<Op>, n: int)
    requires LivePrefix(p) && |p.workers| > 0 && InRange(|p.workers|, ops)
    requires 0 <= n && n + |ops| < INT_MAX && forall i | 0 <= i < |p.workers| :: Clients(p.workers[i]) <= n
    ensures AlwaysLivePrefix(p, C, ops) <==> AlwaysEmptiesAtTop(p, C, ops)
    ensures AlwaysEmptiesAtTop(p, C, ops) ==>
              var q := After(p, C, ops);
              && LivePrefix(q) && Total(q.workers) == Total(p.workers) + Present(p, C, ops)
              && (q.launched > 0 ==> MinAndIdx(q.workers).1 >= 0)
    decreases |ops|
  {
    if ops == [] {
      JoinKeepsPrefix(p, C, true, n);
    } else {
      if ops[0].Join? { JoinKeepsPrefix(p, C, ops[0].handoff, n); } else { LeaveKeepsTotal(p, C, ops[0].thread); }
      if EmptiesAtTop(p, ops[0]) { PrefixIffTop(Do(p, C, ops[0]), C, ops[1..], n + 1); }
    }
  }

  /** In any run of fewer than 2^31 - 1 joins and departures, at and over the limits alike: the running workers
      fill the first `launched` slots throughout exactly when no worker but the highest-numbered one ever
      empties; and then the counts add up to the clients present and the fallback for "no minimum" is never
      reached. */
  lemma LiveSlotsIffTopEmpties(K: nat, C: int, ops: seq<Op>)
    requires K >= 1 && |ops| < INT_MAX && InRange(K, ops)
    ensures AlwaysLivePrefix(Fresh(K), C, ops) <==> AlwaysEmptiesAtTop(Fresh(K), C, ops)
    ensures AlwaysEmptiesAtTop(Fresh(K), C, ops) ==>
              var p := After(Fresh(K), C, ops);
              && LivePrefix(p) && Total(p.workers) == Present(Fresh(K), C, ops)
              && (p.launched > 0 ==> MinAndIdx(p.workers).1 >= 0)
  {
    NobodyYet(K);
    PrefixIffTop(Fresh(K), C, ops, 0);
  }

  // Any run at all: what the counts need.

  function Running(ws: seq<Option<int>>): nat {
    if ws == [] then 0 else (if ws[0].Some? then 1 else 0) + Running(ws[1..])
  }

  lemma {:induction false} RunningUpdate(ws: seq<Option<int>>, i: nat, w: Option<int>)
    requires i < |ws|
    ensures Running(ws[i := w]) + (if ws[i].Some? then 1 else 0) == Running(ws) + (if w.Some? then 1 else 0)
  {
    if i == 0 {
      assert ws[0 := w][1..] == ws[1..];
    } else {
      assert ws[i := w][1..] == ws[1..][i - 1 := w];
      RunningUpdate(ws[1..], i - 1, w);
    }
  }

  lemma {:induction false} RunningBounds(ws: seq<Option<int>>)
    ensures Running(ws) <= |ws|
    ensures Running(ws) == 0 <==> forall i | 0 <= i < |ws| :: ws[i].None?
    ensures Running(ws) == |ws| <==> forall i | 0 <= i < |ws| :: ws[i].Some?
  {
    if ws != [] {
      RunningBounds(ws[1..]);
      assert forall i | 0 < i < |ws| :: ws[i] == ws[1..][i - 1];
    }
  }

  /** `launched` is the number of running workers, wherever they are, and each has a client. */
  ghost predicate Sound(p: Pool) {
    p.launched == Running(p.workers) && forall i | 0 <= i < |p.workers| && p.workers[i].Some? :: p.workers[i].value >= 1
  }

  /** A call would launch a worker in a slot that is taken: no running worker has room under the ceiling, and not
      all are launched. */
  ghost predicate Overwrites(p: Pool) {
    && 0 < p.launched < |p.workers| && p.workers[p.launched].Some?
    && forall i | 0 <= i < |p.workers| && p.workers[i].Some? :: p.workers[i].value >= p.maxClients
  }

  lemma SoundHasMin(p: Pool, n: int)
    requires Sound(p) && p.launched > 0 && n < INT_MAX
    requires forall i | 0 <= i < |p.workers| :: Clients(p.workers[i]) <= n
    ensures var (min, k) := MinAndIdx(p.workers);
            && 0 <= k < |p.workers| && p.workers[k] == Some(min)
            && forall i | 0 <= i < |p.workers| && p.workers[i].Some? :: min <= p.workers[i].value
  {
    MinIdxInRange(p.workers);
    RunningBounds(p.workers);
    var i :| 0 <= i < |p.workers| && p.workers[i].Some?;
    assert Clients(p.workers[i]) <= n;
  }

  lemma OneMoreIsSound(p: Pool, q: Pool, i: nat, n: int)
    requires Sound(p) && i < |p.workers|
    requires forall j | 0 <= j < |p.workers| :: Clients(p.workers[j]) <= n
    requires q.workers == p.workers[i := Some(Clients(p.workers[i]) + 1)]
    requires q.launched == (if p.workers[i].Some? then p.launched else p.launched + 1)
    ensures Sound(q) && forall j | 0 <= j < |q.workers| :: Clients(q.workers[j]) <= n + 1
    ensures Total(q.workers) == Total(p.workers) + 1
  {
    TotalUpdate(p.workers, i, q.workers[i]);
    RunningUpdate(p.workers, i, q.workers[i]);
  }

  /** Which slot a call changes and by how much. A client goes to the first worker with the least count if that one
      has room under the ceiling; else a worker is launched, at slot `launched`, with this client as its only one; else,
      with all launched, the ceiling goes up by one and the client to that worker all the same, unless the limit stops
      it. No other slot changes. */
  lemma JoinIsExact(p: Pool, C: int, h: bool, n: int)
    requires Sound(p) && |p.workers| > 0 && n < INT_MAX
    requires forall i | 0 <= i < |p.workers| :: Clients(p.workers[i]) <= n
    ensures var (q, o) := Connect(p, C, h);
            && o != Undefined
            && (o.ServerFull? ==> q.workers == p.workers && q.launched == p.launched)
            && (o.Launched? ==>
                  && o.worker == p.launched < |p.workers| && q.launched == p.launched + 1
                  && q.workers == p.workers[p.launched := Some(1)])
            && (o.Assigned? || o.HandoffFailed? ==>
                  && o.Assigned? == h && 0 <= o.worker < |p.workers| && p.workers[o.worker].Some?
                  && (forall i | 0 <= i < |p.workers| && p.workers[i].Some? :: p.workers[o.worker].value <= p.workers[i].value)
                  && (forall i | 0 <= i < o.worker && p.workers[i].Some? :: p.workers[o.worker].value < p.workers[i].value)
                  && q.launched == p.launched
                  && q.workers == p.workers[o.worker := Some(p.workers[o.worker].value + 1)])
    ensures var (q, o) := Connect(p, C, h);
            var room := exists i :: 0 <= i < |p.workers| && p.workers[i].Some? && p.workers[i].value < p.maxClients;
            && (o.Launched? <==> p.launched == 0 || (!room && p.launched < |p.workers|))
            && (o.ServerFull? <==> !room && p.launched == |p.workers| && p.maxClients >= C)
            && q.maxClients == if !room && p.launched == |p.workers| then p.maxClients + 1 else p.maxClients
  {
    RunningBounds(p.workers);
    if p.launched > 0 {
      SoundHasMin(p, n);
      MinIdxInRange(p.workers);
    } else {
      assert p.workers[0 := Some(0)][0 := Some(1)] == p.workers[0 := Some(1)];
    }
    if Connect(p, C, h).1.Launched? {
      assert p.workers[p.launched := Some(0)][p.launched := Some(1)] == p.workers[p.launched := Some(1)];
    }
  }

  /** A departure succeeds exactly when its worker has a client. It takes one client off that worker, whose slot is
      freed with its last one, and leaves every other slot as it was; the ceiling becomes the greatest count. */
  lemma LeaveIsExact(p: Pool, t: nat)
    requires t < |p.workers|
    ensures Disconnect(p, t).Some? <==> Clients(p.workers[t]) > 0
    ensures Disconnect(p, t).Some? ==>
              var q := Disconnect(p, t).value;
              && |q.workers| == |p.workers|
              && Clients(q.workers[t]) == Clients(p.workers[t]) - 1
              && (q.workers[t].None? <==> Clients(q.workers[t]) == 0)
              && (forall i | 0 <= i < |p.workers| && i != t :: q.workers[i] == p.workers[i])
              && q.launched == (if q.workers[t].None? then p.launched - 1 else p.launched)
              && (forall i | 0 <= i < |q.workers| :: Clients(q.workers[i]) <= q.maxClients)
              && (q.maxClients == 0 || exists i :: 0 <= i < |q.workers| && Clients(q.workers[i]) == q.maxClients)
  {
    if Disconnect(p, t).Some? {
      var q := Disconnect(p, t).value;
      var i := MaxAttained(q.workers);
      if i >= 0 { assert Clients(q.workers[i]) == q.maxClients; }
    }
  }

  /** Per call: the counts grow by the client accepted exactly when no running worker is overwritten. */
  lemma JoinCountsIff(p: Pool, C: int, h: bool, n: int)
    requires Sound(p) && |p.workers| > 0 && 0 <= n < INT_MAX
    requires forall i | 0 <= i < |p.workers| :: Clients(p.workers[i]) <= n
    ensures var (q, o) := Connect(p, C, h);
            && (Total(q.workers) == Total(p.workers) + Change(p, C, Join(h)) <==> !Overwrites(p))
            && (!Overwrites(p) ==>
                  Sound(q) && o != Undefined && forall i | 0 <= i < |q.workers| :: Clients(q.workers[i]) <= n + 1)
    ensures p.launched > 0 ==> MinAndIdx(p.workers).1 >= 0
  {
    var (q, o) := Connect(p, C, h);
    var l := p.launched;
    RunningBounds(p.workers);
    if l > 0 { SoundHasMin(p, n); }
    if o.Launched? {
      assert p.workers[l := Some(0)][l := Some(1)] == p.workers[l := Some(1)];
      TotalUpdate(p.workers, l, Some(1));
      if p.workers[l].None? { OneMoreIsSound(p, q, l, n); }
    } else if o.Assigned? || o.HandoffFailed? {
      OneMoreIsSound(p, q, MinAndIdx(p.workers).1, n);
    }
  }

  /** A departure takes one client off whoever empties. */
  lemma LeaveIsSound(p: Pool, C: int, t: nat)
    requires Sound(p) && t < |p.workers|
    ensures var q := Do(p, C, Leave(t));
            && Sound(q)
            && (forall i | 0 <= i < |q.workers| :: Clients(q.workers[i]) <= Clients(p.workers[i]))
            && Total(q.workers) == Total(p.workers) + Change(p, C, Leave(t))
            && (p.workers[t].Some? ==> q.maxClients == MaxAndIdx(q.workers).0)
  {
    if p.workers[t].Some? {
      var q := Disconnect(p, t).value;
      TotalUpdate(p.workers, t, q.workers[t]);
      RunningUpdate(p.workers, t, q.workers[t]);
    }
  }

  ghost predicate NeverOverwrites(p: Pool, C: int, ops: seq<Op>)
    requires InRange(|p.workers|, ops)
    decreases |ops|
  {
    ops == [] || (!(ops[0].Join? && Overwrites(p)) && NeverOverwrites(Do(p, C, ops[0]), C, ops[1..]))
  }

  /** In every state the counts add up to the clients present, `n` at the start. */
  ghost predicate AlwaysAddsUp(p: Pool, C: int, ops: seq<Op>, n: int)
    requires InRange(|p.workers|, ops)
    decreases |ops|
  {
    Total(p.workers) == n && (ops == [] || AlwaysAddsUp(Do(p, C, ops[0]), C, ops[1..], n + Change(p, C, ops[0])))
  }

  lemma {:induction false} AddsUpIffNeverOverwrites(p: Pool, C: int, ops: seq<Op>, n: int)
    requires Sound(p) && |p.workers| > 0 && InRange(|p.workers|, ops)
    requires 0 <= n && n + |ops| < INT_MAX && forall i | 0 <= i < |p.workers| :: Clients(p.workers[i]) <= n
    ensures AlwaysAddsUp(p, C, ops, Total(p.workers)) <==> NeverOverwrites(p, C, ops)
    ensures NeverOverwrites(p, C, ops) ==>
              var q := After(p, C, ops); Sound(q) && (q.launched > 0 ==> MinAndIdx(q.workers).1 >= 0)
    decreases |ops|
  {
    if ops == [] {
      JoinCountsIff(p, C, true, n);
    } else {
      if ops[0].Join? { JoinCountsIff(p, C, ops[0].handoff, n); } else { LeaveIsSound(p, C, ops[0].thread); }
      if !(ops[0].Join? && Overwrites(p)) { AddsUpIffNeverOverwrites(Do(p, C, ops[0]), C, ops[1..], n + 1); }
    }
  }

  lemma {:induction false} FreshIsSound(K: nat)
    ensures Sound(Fresh(K)) && Total(Fresh(K).workers) == 0
  {
    NobodyYet(K);
    RunningBounds(Fresh(K).workers);
  }

  /** In any run of fewer than 2^31 - 1 joins and departures, whichever workers empty and whatever is refused: the
      counts add up to the clients present in every state exactly when no call overwrites a running worker; and
      then the fallback for "no minimum" is never reached. */
  lemma CountsAddUpIff(K: nat, C: int, ops: seq<Op>)
    requires K >= 1 && |ops| < INT_MAX && InRange(K, ops)
    ensures AlwaysAddsUp(Fresh(K), C, ops, 0) <==> NeverOverwrites(Fresh(K), C, ops)
    ensures NeverOverwrites(Fresh(K), C, ops) ==>
              var p := After(Fresh(K), C, ops); Sound(p) && (p.launched > 0 ==> MinAndIdx(p.workers).1 >= 0)
  {
    FreshIsSound(K);
    AddsUpIffNeverOverwrites(Fresh(K), C, ops, 0);
  }

  /** Who is counted where: the client of a call on the worker its outcome names, until it leaves that worker. */
  ghost function Booked(p: Pool, C: int, op: Op, ns: seq<int>): (ns': seq<int>)
    requires |ns| == |p.workers| && (op.Leave? ==> op.thread < |p.workers|)
    ensures |ns'| == |ns|
  {
    match op
    case Join(h) =>
      var o := Connect(p, C, h).1;
      if !o.ServerFull? && !o.Undefined? && 0 <= o.worker < |ns| then ns[o.worker := ns[o.worker] + 1] else ns
    case Leave(t) => if Clients(p.workers[t]) > 0 then ns[t := ns[t] - 1] else ns
  }

  /** In every state each worker has as many clients as are counted on it, `ns` at the start. */
  ghost predicate EachAlwaysAddsUp(p: Pool, C: int, ops: seq<Op>, ns: seq<int>)
    requires InRange(|p.workers|, ops) && |ns| == |p.workers|
    decreases |ops|
  {
    && (forall w | 0 <= w < |ns| :: Clients(p.workers[w]) == ns[w])
    && (ops == [] || EachAlwaysAddsUp(Do(p, C, ops[0]), C, ops[1..], Booked(p, C, ops[0], ns)))
  }

  lemma BookedStepIff(p: Pool, C: int, op: Op, ns: seq<int>, n: int)
    requires Sound(p) && |p.workers| > 0 && 0 <= n < INT_MAX && |ns| == |p.workers|
    requires forall w | 0 <= w < |ns| :: Clients(p.workers[w]) == ns[w] <= n
    requires op.Leave? ==> op.thread < |p.workers|
    ensures var q, ns' := Do(p, C, op), Booked(p, C, op, ns);
            (forall w | 0 <= w < |ns'| :: Clients(q.workers[w]) == ns'[w]) <==> !(op.Join? && Overwrites(p))
  {
    match op
    case Leave(t) => LeaveIsExact(p, t);
    case Join(h) =>
      JoinIsExact(p, C, h, n);
      var (q, o) := Connect(p, C, h);
      if o.Launched? {
        var l := p.launched;
        assert Clients(q.workers[l]) == 1 && Booked(p, C, op, ns)[l] == Clients(p.workers[l]) + 1;
        if p.workers[l].Some? { RunningBounds(p.workers); }
      }
  }

  lemma {:induction false} EachAddsUpIffNeverOverwrites(p: Pool, C: int, ops: seq<Op>, ns: seq<int>, n: int)
    requires Sound(p) && |p.workers| > 0 && InRange(|p.workers|, ops) && |ns| == |p.workers|
    requires 0 <= n && n + |ops| < INT_MAX && forall w | 0 <= w < |ns| :: Clients(p.workers[w]) == ns[w] <= n
    ensures EachAlwaysAddsUp(p, C, ops, ns) <==> NeverOverwrites(p, C, ops)
    decreases |ops|
  {
    if ops != [] {
      BookedStepIff(p, C, ops[0], ns, n);
      if ops[0].Join? { JoinCountsIff(p, C, ops[0].handoff, n); } else { LeaveIsSound(p, C, ops[0].thread); }
      if !(ops[0].Join? && Overwrites(p)) {
        EachAddsUpIffNeverOverwrites(Do(p, C, ops[0]), C, ops[1..], Booked(p, C, ops[0], ns), n + 1);
      }
    }
  }

  /** The same for every worker by itself: in every state of such a run each worker's count is the number of clients
      put on that worker minus those that left that worker, exactly when no call overwrites a running worker. */
  lemma EachWorkerAddsUpIff(K: nat, C: int, ops: seq<Op>)
    requires K >= 1 && |ops| < INT_MAX && InRange(K, ops)
    ensures EachAlwaysAddsUp(Fresh(K), C, ops, seq(K, _ => 0)) <==> NeverOverwrites(Fresh(K), C, ops)
  {
    FreshIsSound(K);
    EachAddsUpIffNeverOverwrites(Fresh(K), C, ops, seq(K, _ => 0), 0);
  }

  // Orderly runs: what the limit and the ceiling need.

  ghost predicate OrderlyRun(p: Pool, C: int, ops: seq<Op>)
    requires InRange(|p.workers|, ops)
    decreases |ops|
  {
    ops == [] || (Orderly(p, C, ops[0]) && OrderlyRun(Do(p, C, ops[0]), C, ops[1..]))
  }

  lemma {:induction false} BooksKept(p: Pool, C: int, ops: seq<Op>)
    requires Accounted(p, C) && 1 <= C < INT_MAX && |p.workers| > 0 && InRange(|p.workers|, ops) && OrderlyRun(p, C, ops)
    ensures var q := After(p, C, ops);
            Accounted(q, C) && |q.workers| == |p.workers| && Total(q.workers) == Total(p.workers) + Present(p, C, ops)
    decreases |ops|
  {
    if ops != [] {
      if ops[0].Join? {
        JoinKeepsBooks(p, C, ops[0].handoff);
      } else {
        LeaveKeepsBooks(p, C, ops[0].thread);
      }
      BooksKept(Do(p, C, ops[0]), C, ops[1..]);
    }
  }

  lemma {:induction false} NobodyYet(K: nat)
    ensures Total(Fresh(K).workers) == 0
  {
    if K > 0 {
      assert Fresh(K).workers[1..] == Fresh(K - 1).workers;
      NobodyYet(K - 1);
    }
  }

  /** One operation keeps the books exactly when it is orderly. */
  lemma AccountedStepIff(p: Pool, C: int, op: Op)
    requires Accounted(p, C) && 1 <= C < INT_MAX && |p.workers| > 0 && (op.Leave? ==> op.thread < |p.workers|)
    ensures Accounted(Do(p, C, op), C) <==> Orderly(p, C, op)
  {
    match op
    case Leave(t) =>
      LeaveKeepsTotal(p, C, t);
      if EmptiesAtTop(p, op) { LeaveKeepsBooks(p, C, t); }
    case Join(h) =>
      if Orderly(p, C, op) {
        JoinKeepsBooks(p, C, h);
      } else if p.launched == 0 {
        JoinEmptied(p, C, h);
      } else {
        MaxPositive(p);
        var i := MaxAttained(p.workers);
        assert Clients(p.workers[i]) <= C;
        assert EachHas(p, C) && p.workers[0] == Some(C) && Overloads(p, C);
        JoinWithinLimitIff(p, C, h);
      }
  }

  lemma MaxPositive(p: Pool)
    requires LivePrefix(p) && p.launched > 0
    ensures MaxAndIdx(p.workers).0 >= 1
  {
    MaxFromIsFirstGreatest(p.workers, 0, 0, -1);
    assert p.workers[0].Some?;
  }

  lemma JoinEmptied(p: Pool, C: int, h: bool)
    requires LivePrefix(p) && p.launched == 0 < |p.workers| && p.maxClients == 0 && C >= 1
    ensures !Accounted(Connect(p, C, h).0, C)
  {
    var q := Connect(p, C, h).0;
    assert q.launched == 1 && q.maxClients == 0;
    if LivePrefix(q) { MaxPositive(q); }
  }

  ghost predicate AlwaysAccounted(p: Pool, C: int, ops: seq<Op>)
    requires InRange(|p.workers|, ops)
    decreases |ops|
  {
    Accounted(p, C) && (ops == [] || AlwaysAccounted(Do(p, C, ops[0]), C, ops[1..]))
  }

  lemma {:induction false} AccountedIffOrderly(p: Pool, C: int, ops: seq<Op>)
    requires Accounted(p, C) && 1 <= C < INT_MAX && |p.workers| > 0 && InRange(|p.workers|, ops)
    ensures AlwaysAccounted(p, C, ops) <==> OrderlyRun(p, C, ops)
    decreases |ops|
  {
    if ops != [] {
      var q := Do(p, C, ops[0]);
      AccountedStepIff(p, C, ops[0]);
      if Accounted(q, C) { AccountedIffOrderly(q, C, ops[1..]); }
    }
  }

  /** Over any run of a fresh pool: live slots together, no worker above the limit and the ceiling at the
      greatest count (or one above the limit right after a refusal) hold throughout exactly when the run is
      orderly. */
  lemma BooksKeptIffOrderly(K: nat, C: int, ops: seq<Op>)
    requires K >= 1 && 1 <= C < INT_MAX && InRange(K, ops)
    ensures AlwaysAccounted(Fresh(K), C, ops) <==> OrderlyRun(Fresh(K), C, ops)
  {
    AccountedIffOrderly(Fresh(K), C, ops);
  }

  /** After any orderly run: the workers running are exactly the first `launched` slots, none empty and none
      above the limit; their counts add up to the clients present; the fallback for "no minimum" cannot be
      reached; and a client who may join is refused exactly when K * C are present. */
  lemma OrderlyRunsAreAccounted(K: nat, C: int, ops: seq<Op>)
    requires K >= 1 && 1 <= C < INT_MAX && InRange(K, ops) && OrderlyRun(Fresh(K), C, ops)
    ensures var p, n := After(Fresh(K), C, ops), Present(Fresh(K), C, ops);
            && LivePrefix(p) && |p.workers| == K
            && (forall i | 0 <= i < p.launched :: 1 <= p.workers[i].value <= C)
            && Total(p.workers) == n <= K * C
            && (p.launched > 0 ==> MinAndIdx(p.workers).1 >= 0)
            && (forall h :: Orderly(p, C, Join(h)) ==> (Connect(p, C, h).1 == ServerFull <==> n == K * C))
  {
    NobodyYet(K);
    BooksKept(Fresh(K), C, ops);
    var p := After(Fresh(K), C, ops);
    assert forall i | 0 <= i < p.launched :: p.workers[i].value == Clients(p.workers[i]);
    TotalAtMost(p.workers, C);
    if p.launched > 0 { FallbackUnreachable(p, C); }
    forall h | Orderly(p, C, Join(h)) ensures Connect(p, C, h).1 == ServerFull <==> Total(p.workers) == K * C {
      JoinKeepsBooks(p, C, h);
      assert EachHas(p, C) <==> forall i | 0 <= i < |p.workers| :: Clients(p.workers[i]) == C;
    }
  }

  // The limit: exactly when it is kept, and exactly when a client is refused.

  ghost predicate WithinLimit(p: Pool, C: int) {
    forall i | 0 <= i < |p.workers| :: Clients(p.workers[i]) <= C
  }

  /** Some worker is running, and every running worker is at the limit. */
  ghost predicate AllAtLimit(p: Pool, C: int) {
    && p.launched != 0
    && (exists i :: 0 <= i < |p.workers| && p.workers[i].Some?)
    && (forall i | 0 <= i < |p.workers| && p.workers[i].Some? :: p.workers[i].value == C)
  }

  /** The ceiling is off: above the limit, or below it with all workers launched. */
  ghost predicate Overloads(p: Pool, C: int) {
    AllAtLimit(p, C) && (p.maxClients > C || (p.launched == |p.workers| && p.maxClients < C))
  }

  lemma LeastIsLimit(p: Pool, C: int)
    requires WithinLimit(p, C) && 0 <= C < INT_MAX
    ensures var (m, k) := MinAndIdx(p.workers);
            && FirstLeast(p.workers, |p.workers|, m, k)
            && (k >= 0 <==> exists i :: 0 <= i < |p.workers| && p.workers[i].Some?)
            && (k >= 0 ==> m <= C && (m == C <==> forall i | 0 <= i < |p.workers| && p.workers[i].Some? ::
                  p.workers[i].value == C))
  {
    MinIdxInRange(p.workers);
    var (m, k) := MinAndIdx(p.workers);
    forall i | 0 <= i < |p.workers| && p.workers[i].Some? ensures m <= p.workers[i].value <= C {
      assert Clients(p.workers[i]) <= C;
    }
  }

  /** From any state within the limit, a call leaves it within the limit exactly when it does not overload:
      the running workers are not all full, or the ceiling lets the call be refused or a worker be launched. */
  lemma JoinWithinLimitIff(p: Pool, C: int, h: bool)
    requires 1 <= C < INT_MAX && WithinLimit(p, C)
    ensures WithinLimit(Connect(p, C, h).0, C) <==> !Overloads(p, C)
  {
    LeastIsLimit(p, C);
    var (m, k) := MinAndIdx(p.workers);
    var q := Connect(p, C, h).0;
    if Overloads(p, C) {
      assert Clients(q.workers[k]) == C + 1;
    } else {
      forall i | 0 <= i < |q.workers| ensures Clients(q.workers[i]) <= C {
        assert Clients(p.workers[i]) <= C;
      }
    }
  }

  /** A call is refused exactly when all slots are launched, all running workers are at the limit and the
      ceiling is the limit. */
  lemma RefusedIff(p: Pool, C: int, h: bool)
    requires 1 <= C < INT_MAX && WithinLimit(p, C) && p.launched <= |p.workers|
    ensures Connect(p, C, h).1 == ServerFull <==>
              AllAtLimit(p, C) && p.launched == |p.workers| && p.maxClients == C
  {
    LeastIsLimit(p, C);
  }

  ghost predicate AlwaysWithinLimit(p: Pool, C: int, ops: seq<Op>)
    requires InRange(|p.workers|, ops)
    decreases |ops|
  {
    WithinLimit(p, C) && (ops == [] || AlwaysWithinLimit(Do(p, C, ops[0]), C, ops[1..]))
  }

  ghost predicate NeverOverloads(p: Pool, C: int, ops: seq<Op>)
    requires InRange(|p.workers|, ops)
    decreases |ops|
  {
    ops == [] || (!(ops[0].Join? && Overloads(p, C)) && NeverOverloads(Do(p, C, ops[0]), C, ops[1..]))
  }

  lemma {:induction false} WithinLimitIffNeverOverloads(p: Pool, C: int, ops: seq<Op>)
    requires 1 <= C < INT_MAX && InRange(|p.workers|, ops) && WithinLimit(p, C)
    ensures AlwaysWithinLimit(p, C, ops) <==> NeverOverloads(p, C, ops)
    decreases |ops|
  {
    if ops != [] {
      var q := Do(p, C, ops[0]);
      if ops[0].Join? {
        JoinWithinLimitIff(p, C, ops[0].handoff);
      } else {
        forall i | 0 <= i < |q.workers| ensures Clients(q.workers[i]) <= C { assert Clients(p.workers[i]) <= C; }
      }
      if WithinLimit(q, C) { WithinLimitIffNeverOverloads(q, C, ops[1..]); }
    }
  }

  /** Over any run of a fresh pool, whichever workers empty and whatever was refused: no worker ever exceeds
      the limit exactly when no call meets full workers with the ceiling off. */
  lemma LimitKeptIff(K: nat, C: int, ops: seq<Op>)
    requires 1 <= C < INT_MAX && InRange(K, ops)
    ensures AlwaysWithinLimit(Fresh(K), C, ops) <==> NeverOverloads(Fresh(K), C, ops)
  {
    WithinLimitIffNeverOverloads(Fresh(K), C, ops);
  }

  // A client that cannot be passed on.

  /** A failed handoff is reported and changes nothing else: the count goes up first and is not taken back, so the
      client stays counted on a worker that never hears of it. The listener closes the server then; runs that go on
      are more than the program has. */
  lemma FailedHandoffIsCounted(p: Pool, C: int)
    ensures var (q, o), (q', o') := Connect(p, C, true), Connect(p, C, false);
            && q' == q
            && (o.Assigned? <==> o'.HandoffFailed?)
            && (o'.HandoffFailed? ==>
                  && o' == HandoffFailed(o.worker) && 0 <= o.worker < |p.workers|
                  && Total(q'.workers) == Total(p.workers) + 1
                  && Clients(q'.workers[o.worker]) == Clients(p.workers[o.worker]) + 1)
            && (!o'.HandoffFailed? ==> o' == o)
  {
    MinIdxInRange(p.workers);
    var k := MinAndIdx(p.workers).1;
    if k >= 0 { TotalUpdate(p.workers, k, Some(p.workers[k].value + 1)); }
  }

  // What goes wrong otherwise.

  /** An instance: a lower-numbered worker empties while all others have `m` clients. The next client is put in the
      slot of the last running worker, whose own `m` clients drop out of the books. */
  lemma LiveWorkerOverwritten(p: Pool, C: int, t: nat, m: int)
    requires LivePrefix(p) && t < p.launched - 1 && p.workers[t] == Some(1) && 1 <= m < INT_MAX
    requires forall i | 0 <= i < p.launched && i != t :: p.workers[i] == Some(m)
    ensures Disconnect(p, t).Some?
    ensures var q := Disconnect(p, t).value;
            && q.workers[p.launched - 1] == Some(m)
            && Connect(q, C, true).1 == Launched(p.launched - 1)
            && Connect(q, C, true).0.workers[p.launched - 1] == Some(1)
  {
    var q := Disconnect(p, t).value;
    var last := p.launched - 1;
    assert q.workers[last] == Some(m);
    MaxFromIsFirstGreatest(q.workers, 0, 0, -1);
    MinIdxInRange(q.workers);
    var (min, k) := MinAndIdx(q.workers);
    assert q.workers[k] == Some(m);
  }

  /** Wherever everyone has left, the last departure leaves the pool of a fresh server with ceiling 0. */
  lemma EmptiedPool(p: Pool, C: int, t: nat)
    requires Sound(p) && t < |p.workers| && Disconnect(p, t).Some? && Running(Disconnect(p, t).value.workers) == 0
    ensures Disconnect(p, t).value == Fresh(|p.workers|).(maxClients := 0)
  {
    var q := Disconnect(p, t).value;
    LeaveIsSound(p, C, t);
    RunningBounds(q.workers);
    var i := MaxAttained(q.workers);
    assert q.workers == Fresh(|p.workers|).workers;
  }

  /** `n` calls after everyone has left. */
  ghost function AfterEmptying(K: nat, C: int, n: nat): Pool {
    if n == 0 then Fresh(K).(maxClients := 0) else Connect(AfterEmptying(K, C, n - 1), C, true).0
  }

  ghost function Lowered(p: Pool, lag: int): Pool { p.(maxClients := p.maxClients - lag) }

  /** How far the ceiling is behind after `n` calls. */
  function Lag(K: nat, n: nat): int { if K == 1 || n <= K + 1 then 1 else 0 }

  /** A call with the ceiling one too low does what it does with the right one, and the ceiling stays behind --
      unless it is the second call of the second round, with two workers or more, which catches up. */
  lemma LaggingStep(p: Pool, K: nat, C: int, q: nat, r: nat)
    requires K >= 1 && Spread(p, K, q, r) && r < K && q < C < INT_MAX
    requires q == 0 || K == 1 || (q == 1 && r <= 1)
    ensures Connect(Lowered(p, 1), C, true).0
            == Lowered(Connect(p, C, true).0, if K > 1 && q == 1 && r == 1 then 0 else 1)
    ensures Connect(Lowered(p, 1), C, true).1 == Connect(p, C, true).1 != ServerFull
  {
    var (m, k) := MinAndIdx(p.workers);
    MinIdxInRange(p.workers);
    if q > 0 {
      FirstLeastIsUnique(p.workers, m, k, q, r);
    } else if r > 0 {
      FirstLeastIsUnique(p.workers, m, k, 1, 0);
    }
  }

  lemma RoundsSoFar(n: nat, K: nat, q: nat, r: nat)
    requires K >= 1 && n == q * K + r && r < K
    ensures Lag(K, n) == 1 <==> q == 0 || K == 1 || (q == 1 && r <= 1)
    ensures Lag(K, n) == 1 ==> Lag(K, n + 1) == if K > 1 && q == 1 && r == 1 then 0 else 1
    ensures Lag(K, n) == 0 ==> Lag(K, n + 1) == 0
  {
    if q >= 2 { assert q * K >= 2 * K by { Bits.ProductAtLeast(q - 1, K); assert q * K == (q - 1) * K + K; } }
  }

  lemma LagStep(K: nat, C: nat, n: nat)
    requires K >= 1 && 1 <= C < INT_MAX && n < K * C
    ensures var (p, o) := Connect(Lowered(AfterConnects(K, C, n), Lag(K, n)), C, true);
            p == Lowered(AfterConnects(K, C, n + 1), Lag(K, n + 1)) && o != ServerFull
  {
    var q, r := RoundOf(n, K, C);
    ConnectsSpread(K, C, n, q, r);
    RoundsSoFar(n, K, q, r);
    SpreadStep(AfterConnects(K, C, n), K, C, q, r);
    if Lag(K, n) == 1 { LaggingStep(AfterConnects(K, C, n), K, C, q, r); }
  }

  /** After everyone has left, the first K * C calls do exactly what they do on a fresh server; only the ceiling is
      one behind, for good with one worker, and else until call K + 2. */
  lemma {:induction false} CeilingLagsBehind(K: nat, C: nat, n: nat)
    requires K >= 1 && 1 <= C < INT_MAX && n <= K * C
    ensures AfterEmptying(K, C, n) == Lowered(AfterConnects(K, C, n), Lag(K, n))
    ensures n < K * C ==> Connect(AfterEmptying(K, C, n), C, true).1 != ServerFull
    decreases n
  {
    if n > 0 {
      CeilingLagsBehind(K, C, n - 1);
      LagStep(K, C, n - 1);
    }
    if n < K * C { LagStep(K, C, n); }
  }

  lemma LagAtTheEnd(K: nat, C: nat)
    requires K >= 1 && C >= 1
    ensures Lag(K, K * C) == 1 <==> K == 1 || C == 1
  {
    if C >= 2 { assert K * C >= 2 * K by { Bits.ProductAtLeast(C - 1, K); assert K * C == (C - 1) * K + K; } }
  }

  /** After everyone has left, no worker exceeds the limit and no call is refused up to call K * C. Call K * C + 1
      then counts a client above the limit exactly with one worker or a limit of one; else it is refused. */
  lemma LimitExceededAfterEmptying(K: nat, C: nat)
    requires K >= 1 && 1 <= C < INT_MAX
    ensures forall n: nat | n <= K * C :: WithinLimit(AfterEmptying(K, C, n), C)
    ensures forall n: nat | n < K * C :: Connect(AfterEmptying(K, C, n), C, true).1 != ServerFull
    ensures !WithinLimit(AfterEmptying(K, C, K * C + 1), C) <==> K == 1 || C == 1
    ensures Connect(AfterEmptying(K, C, K * C), C, true).1 == ServerFull <==> !(K == 1 || C == 1)
  {
    forall n: nat | n <= K * C
      ensures WithinLimit(AfterEmptying(K, C, n), C)
      ensures n < K * C ==> Connect(AfterEmptying(K, C, n), C, true).1 != ServerFull
    {
      var q, r := RoundOf(n, K, C);
      ConnectsSpread(K, C, n, q, r);
      CeilingLagsBehind(K, C, n);
    }
    var p := AfterEmptying(K, C, K * C);
    LagAtTheEnd(K, C);
    CeilingLagsBehind(K, C, K * C);
    ConnectsSpread(K, C, K * C, C, 0);
    assert p.workers[0] == Some(C) && p.maxClients == C - Lag(K, K * C) && p.launched == K;
    assert AllAtLimit(p, C);
    JoinWithinLimitIff(p, C, true);
    RefusedIff(p, C, true);
  }
}
