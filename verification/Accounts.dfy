/** The books of the whole server: which descriptor and which worker a connection has, and how many connections each
    worker has. */
module Accounts {
  import opened Wrappers
  import opened Resources
  import opened ClientTable
  import L = LoadBalancer
  import B = Broadcast
  import H = Handshake
  import opened WorkerLoop

  // ---------------------------------------------------------------- records but for their queues

  function Face(r: Record): Record { r.(queue := []) }

  /** The record with an id, if it is in the table, without its queue. */
  function FaceOf(t: Table, id: int): Option<Record> {
    var i := Find(t.slots, id);
    if i < |t.slots| then Some(Face(t.slots[i].value)) else None
  }

  lemma SetFace(t: Table, t': Table, i: nat, r: Record)
    requires IdsDiffer(t.slots) && i < |t.slots| && t.slots[i].Some? && r.id == t.slots[i].value.id
    requires t'.slots == t.slots[i := Some(r)]
    ensures forall id :: FaceOf(t', id) == if id == r.id then Some(Face(r)) else FaceOf(t, id)
  {
    forall id ensures FaceOf(t', id) == if id == r.id then Some(Face(r)) else FaceOf(t, id) {
      if id != r.id { SameFind(t.slots, t'.slots, id); } else { assert HasId(t'.slots[i], id); }
    }
  }

  lemma AcceptFace(t: Table, fd: nat, color: int)
    requires TableInv(t) && FirstFree(t.slots) < |t.slots|
    ensures var t' := ClientTable.Accept(t, fd, color).0;
            forall id :: FaceOf(t', id) ==
              if id == t.nextId then Some(Record(id, fd, "", color, INITIAL_STATE, [])) else FaceOf(t, id)
  {
    AcceptKeepsTable(t, fd, color);
    var t' := ClientTable.Accept(t, fd, color).0;
    var i: nat :| Seats(t, t', i, fd, color);
    forall id ensures FaceOf(t', id) ==
        if id == t.nextId then Some(Record(id, fd, "", color, INITIAL_STATE, [])) else FaceOf(t, id)
    {
      if id != t.nextId {
        SameFind(t.slots, t'.slots, id);
        if Find(t.slots, id) < |t.slots| { assert t'.slots[Find(t.slots, id)] == t.slots[Find(t.slots, id)]; }
      } else {
        StateAt(t', i, id);
      }
    }
  }

  lemma QueuesKeepFaces(t: Table, slots: seq<Option<Record>>)
    requires OnlyQueuesDiffer(t.slots, slots)
    ensures forall id :: FaceOf(t.(slots := slots), id) == FaceOf(t, id)
  {
    forall id ensures FaceOf(t.(slots := slots), id) == FaceOf(t, id) { SameFind(t.slots, slots, id); }
  }

  lemma DisconnectFace(t: Table, id: int)
    requires TableInv(t) && Disconnect(t, id).Some?
    ensures forall other :: FaceOf(Disconnect(t, id).value, other) == if other == id then None else FaceOf(t, other)
  {
    DisconnectKeepsTable(t, id);
    var t' := Disconnect(t, id).value;
    forall other ensures FaceOf(t', other) == if other == id then None else FaceOf(t, other) {
      if other != id { SameFind(t.slots, t'.slots, other); }
    }
  }

  /** Handling a note removes the departed client and changes nothing else but queues. */
  lemma HandleKeepsFaces(t: Table, p: L.Pool, queueSize: nat, m: B.Note)
    requires TableInv(t) && m.thread < |p.workers| && Ids(t.slots) != []
    ensures var t' := B.Handle(t, p, queueSize, m).0;
            forall id :: FaceOf(t', id) ==
              if m.fields.action == ActionName(CL_DISCONNECTED) && id == m.id then None else FaceOf(t, id)
  {
    if B.EntryOf(m).Some? {
      var ids, e := Ids(t.slots), B.EntryOf(m).value;
      if m.fields.action == ActionName(CL_DISCONNECTED) {
        var d := Disconnect(t, m.id);
        if d.Some? {
          DisconnectFace(t, m.id);
          UnicastChangesQueues(d.value.slots, queueSize, e.excepted, ids, e.text);
          QueuesKeepFaces(d.value, Unicast(d.value.slots, queueSize, e.excepted, ids, e.text).0);
        }
      } else {
        UnicastChangesQueues(t.slots, queueSize, e.excepted, ids, e.text);
        QueuesKeepFaces(t, Unicast(t.slots, queueSize, e.excepted, ids, e.text).0);
      }
    }
  }

  // ---------------------------------------------------------------- descriptors and worker numbers

  /** The record of `id` has descriptor `fd`, and the load balancer has counted it on worker `number`. */
  ghost predicate EntryRight(s: Server, number: int, fd: int, id: int) {
    && FaceOf(s.table, id).Some? && FaceOf(s.table, id).value.fd == fd
    && Numbered(s, id, number)
  }

  predicate Numbered(s: Server, id: int, number: int) { 0 <= id < |s.numbers| && s.numbers[id] == number }

  ghost predicate ListEntries(s: Server) {
    forall w: nat, j: nat | Serves(s, w, j) ::
      EntryRight(s, s.threads[w].number, s.threads[w].clients[j].0, s.threads[w].clients[j].1)
  }

  ghost predicate OrderEntries(s: Server) {
    forall k | 0 <= k < |s.orders| :: EntryRight(s, s.orders[k].number, s.orders[k].fd, s.orders[k].id)
  }

  ghost predicate FarewellNumbers(s: Server) {
    forall k | 0 <= k < |s.posts| && IsFarewell(s.posts[k]) :: Numbered(s, s.posts[k].conn, s.posts[k].number)
  }

  ghost predicate EntriesRight(s: Server) {
    |s.numbers| == |s.places| && ListEntries(s) && OrderEntries(s) && FarewellNumbers(s)
  }

  ghost predicate Waiting(s: Server, id: int) { 0 <= id < |s.places| && (s.places[id].Listed? || s.places[id].Queued?) }

  /** What was right of a connection listed or on its way still is. */
  ghost predicate KeepsEntries(s: Server, s': Server) {
    && (forall number, fd, id | EntryRight(s, number, fd, id) && Waiting(s, id) :: EntryRight(s', number, fd, id))
    && (forall id, number | Numbered(s, id, number) :: Numbered(s', id, number))
  }

  lemma EntryWaits(s: Server, w: nat, j: nat)
    requires ListsRight(s) && Serves(s, w, j)
    ensures Waiting(s, s.threads[w].clients[j].1)
  {
    assert IsAt(s, s.threads[w].clients[j].1, Listed(w));
  }

  lemma SameListEntries(s: Server, s': Server)
    requires ListsRight(s) && ListEntries(s) && KeepsEntries(s, s') && s'.threads == s.threads
    ensures ListEntries(s')
  {
    forall w: nat, j: nat | Serves(s', w, j)
      ensures EntryRight(s', s'.threads[w].number, s'.threads[w].clients[j].0, s'.threads[w].clients[j].1)
    {
      EntryWaits(s, w, j);
      assert Serves(s, w, j);
    }
  }

  lemma SameOrderEntries(s: Server, s': Server)
    requires OrdersRight(s) && OrderEntries(s) && KeepsEntries(s, s') && s'.orders == s.orders
    ensures OrderEntries(s')
  {
    forall k | 0 <= k < |s'.orders| ensures EntryRight(s', s'.orders[k].number, s'.orders[k].fd, s'.orders[k].id) {
      assert IsAt(s, s.orders[k].id, Queued);
    }
  }

  lemma AcceptedEntries(s: Server, limit: int, fd: nat, color: int, h: bool)
    requires Inv(s) && EntriesRight(s)
    ensures EntriesRight(AcceptStep(s, limit, fd, color, h))
  {
    var s' := AcceptStep(s, limit, fd, color, h);
    if s.listening && FirstFree(s.table.slots) < |s.table.slots| {
      AcceptFace(s.table, fd, color);
      AcceptShape(s, limit, fd, color, h);
      NewEntry(s, s', fd);
    }
  }

  lemma NewEntry(s: Server, s': Server, fd: int)
    requires ListsRight(s) && OrdersRight(s) && EntriesRight(s)
    requires forall id | id != |s.places| :: FaceOf(s'.table, id) == FaceOf(s.table, id)
    requires FaceOf(s'.table, |s.places|).Some? && FaceOf(s'.table, |s.places|).value.fd == fd
    requires |s'.numbers| == |s.places| + 1 == |s'.places| && s'.numbers[..|s.places|] == s.numbers && s'.posts == s.posts
    requires s'.threads == s.threads || s'.threads == s.threads + [Thread(s'.numbers[|s.places|], [(fd, |s.places|)])]
    requires s'.orders == s.orders || s'.orders == s.orders + [Assignment(s'.numbers[|s.places|], fd, |s.places|)]
    ensures EntriesRight(s')
  {
    assert forall id | 0 <= id < |s.numbers| :: s'.numbers[id] == s'.numbers[..|s.places|][id];
    assert KeepsEntries(s, s');
    forall w: nat, j: nat | Serves(s', w, j)
      ensures EntryRight(s', s'.threads[w].number, s'.threads[w].clients[j].0, s'.threads[w].clients[j].1)
    {
      if w < |s.threads| {
        assert Serves(s, w, j);
        EntryWaits(s, w, j);
      }
    }
    forall k | 0 <= k < |s'.orders| ensures EntryRight(s', s'.orders[k].number, s'.orders[k].fd, s'.orders[k].id) {
      if k < |s.orders| { assert IsAt(s, s.orders[k].id, Queued); }
    }
  }

  lemma HandledEntries(s: Server, queueSize: nat, k: nat)
    requires Inv(s) && EntriesRight(s)
    ensures EntriesRight(HandleStep(s, queueSize, k))
  {
    if s.listening && k < |s.posts| {
      var p, s' := s.posts[k], HandleStep(s, queueSize, k);
      WithoutIsPart(s.posts, k);
      if Ids(s.table.slots) != [] && p.frame.id.Some? && 0 <= p.number < |s.pool.workers| {
        NamesDiffer(p.frame.action);
        HandleKeepsFaces(s.table, s.pool, queueSize, NoteOf(p));
        assert IsFarewell(p) ==> IsAt(s, p.conn, Leaving);
      }
      assert KeepsEntries(s, s');
      SameListEntries(s, s');
      SameOrderEntries(s, s');
    }
  }

  lemma FetchedEntries(s: Server, w: nat, k: nat)
    requires Inv(s) && EntriesRight(s)
    ensures EntriesRight(FetchStep(s, w, k))
  {
    if w < |s.threads| && s.threads[w].clients != [] && k < |s.orders| {
      var o, s' := s.orders[k], FetchStep(s, w, k);
      WithoutIsPart(s.orders, k);
      assert KeepsEntries(s, s');
      forall v: nat, j: nat | Serves(s', v, j)
        ensures EntryRight(s', s'.threads[v].number, s'.threads[v].clients[j].0, s'.threads[v].clients[j].1)
      {
        if j < |s.threads[v].clients| {
          assert Serves(s, v, j);
          EntryWaits(s, v, j);
        }
      }
    }
  }

  lemma ServedEntries(s: Server, w: nat, j: nat, r: Record, out: seq<H.Frame>)
    requires Inv(s) && EntriesRight(s) && Serves(s, w, j) && SlotAt(s, w, j) < |s.table.slots|
    requires r.id == IdAt(s, w, j) && r.fd == RecordAt(s, w, j).fd
    requires |out| <= 1 && (out != [] ==> out[0].action != CL_DISCONNECTED)
    ensures EntriesRight(Served(s, w, j, r, out))
  {
    EntryHasRecord(s, w, j);
    var s' := Served(s, w, j, r, out);
    SetFace(s.table, s'.table, SlotAt(s, w, j), r);
    assert KeepsEntries(s, s');
    SameListEntries(s, s');
    SameOrderEntries(s, s');
  }

  lemma SweptEntries(s: Server, w: nat, j: nat, leftover: string)
    requires Inv(s) && EntriesRight(s)
    ensures EntriesRight(SweepStep(s, w, j, leftover))
  {
    var s' := SweepStep(s, w, j, leftover);
    if s'.threads != s.threads {
      WithoutIsPart(s.threads[w].clients, j);
      assert KeepsEntries(s, s');
      assert EntryRight(s, s.threads[w].number, s.threads[w].clients[j].0, s.threads[w].clients[j].1);
      forall v: nat, i: nat | Serves(s', v, i)
        ensures EntryRight(s', s'.threads[v].number, s'.threads[v].clients[i].0, s'.threads[v].clients[i].1)
      {
        var i' := if v == w && i >= j then i + 1 else i;
        assert Serves(s, v, i') && s'.threads[v].clients[i] == s.threads[v].clients[i'];
        EntryWaits(s, v, i');
      }
      SameOrderEntries(s, s');
    }
  }

  /** What a worker does to a record keeps its descriptor and its colour. */
  lemma InputKeepsFd(r: Record, f: H.Frame)
    ensures var (r', _, out) := H.ServerInput(r, f);
            r'.fd == r.fd && r'.id == r.id && r'.colorId == r.colorId && r'.queue == r.queue
            && |out| <= 1 && (out != [] ==> out[0].action != CL_DISCONNECTED)
  {
  }

  lemma StepKeepsEntries(s: Server, limit: int, queueSize: nat, e: Event)
    requires Inv(s) && EntriesRight(s)
    ensures EntriesRight(Step(s, limit, queueSize, e))
  {
    match e
    case Accept(fd, color, h) => AcceptedEntries(s, limit, fd, color, h);
    case HandlePost(k) => HandledEntries(s, queueSize, k);
    case Fetch(w, k) => FetchedEntries(s, w, k);
    case Input(w, j, f) =>
      if Serves(s, w, j) {
        EntryHasRecord(s, w, j);
        var (r, _, out) := H.ServerInput(RecordAt(s, w, j), f);
        InputKeepsFd(RecordAt(s, w, j), f);
        ServedEntries(s, w, j, r, out);
      }
    case EndOfFile(w, j) =>
      if Serves(s, w, j) {
        EntryHasRecord(s, w, j);
        ServedEntries(s, w, j, RecordAt(s, w, j).(state := DISCONNECT_STATE), []);
      }
    case Output(w, j) =>
      if Serves(s, w, j) {
        EntryHasRecord(s, w, j);
        var r := H.ServerOutput(RecordAt(s, w, j)).0;
        ServedEntries(s, w, j, if r.state == INITIALIZED then r.(queue := []) else r, []);
      }
    case Sweep(w, j, c) => SweptEntries(s, w, j, c);
  }

  lemma {:induction false} EntriesInRun(s: Server, limit: int, queueSize: nat, run: seq<Event>)
    requires Inv(s) && EntriesRight(s)
    ensures Inv(Run(s, limit, queueSize, run)) && EntriesRight(Run(s, limit, queueSize, run))
    decreases |run|
  {
    if run != [] {
      StepKeeps(s, limit, queueSize, run[0]);
      StepKeepsEntries(s, limit, queueSize, run[0]);
      EntriesInRun(Step(s, limit, queueSize, run[0]), limit, queueSize, run[1..]);
    }
  }

  /** In every run each entry of a worker's list has the descriptor of its record and is on a worker with the number
      it was counted on; the same for those on their way; and a CL_DISCONNECTED names the worker its client was
      counted on. */
  lemma ListedWhereCounted(clients: nat, threads: nat, limit: int, queueSize: nat, run: seq<Event>)
    ensures var s := Run(Start(clients, threads), limit, queueSize, run);
            && |s.numbers| == s.table.nextId
            && (forall w: nat, j: nat | Serves(s, w, j) ::
                  && SlotAt(s, w, j) < |s.table.slots| && RecordAt(s, w, j).fd == s.threads[w].clients[j].0
                  && Numbered(s, IdAt(s, w, j), s.threads[w].number))
            && (forall k | 0 <= k < |s.orders| :: EntryRight(s, s.orders[k].number, s.orders[k].fd, s.orders[k].id))
            && (forall k | 0 <= k < |s.posts| && IsFarewell(s.posts[k]) :: Numbered(s, s.posts[k].conn, s.posts[k].number))
  {
    StartIsRight(clients, threads);
    EntriesInRun(Start(clients, threads), limit, queueSize, run);
    var s := Run(Start(clients, threads), limit, queueSize, run);
    forall w: nat, j: nat | Serves(s, w, j)
      ensures SlotAt(s, w, j) < |s.table.slots| && RecordAt(s, w, j).fd == s.threads[w].clients[j].0
    {
      EntryHasRecord(s, w, j);
      assert EntryRight(s, s.threads[w].number, s.threads[w].clients[j].0, s.threads[w].clients[j].1);
    }
  }

  /** A client popped by a worker goes to the end of that worker's list, with its descriptor, if that worker has the
      number it was counted on, and is lost otherwise. */
  lemma LostIffPoppedByAnother(clients: nat, threads: nat, limit: int, queueSize: nat, run: seq<Event>, w: nat, k: nat)
    requires var s := Run(Start(clients, threads), limit, queueSize, run);
             w < |s.threads| && s.threads[w].clients != [] && k < |s.orders|
    ensures var s := Run(Start(clients, threads), limit, queueSize, run);
            var s', id := Step(s, limit, queueSize, Fetch(w, k)), s.orders[k].id;
            && FaceOf(s.table, id).Some? && 0 <= id < |s.numbers|
            && (s.numbers[id] == s.threads[w].number ==>
                  && IsAt(s', id, Listed(w))
                  && s'.threads[w].clients == s.threads[w].clients + [(FaceOf(s.table, id).value.fd, id)])
            && (s.numbers[id] != s.threads[w].number ==> IsAt(s', id, Lost) && s'.threads == s.threads)
  {
    StartIsRight(clients, threads);
    EntriesInRun(Start(clients, threads), limit, queueSize, run);
    var s := Run(Start(clients, threads), limit, queueSize, run);
    assert EntryRight(s, s.orders[k].number, s.orders[k].fd, s.orders[k].id);
  }

  // ---------------------------------------------------------------- how many clients each worker has

  /** The connections counted on worker `n` that the listener has not let go. */
  ghost function CountedOn(places: seq<Place>, numbers: seq<int>, n: int): nat
    requires |numbers| == |places|
  {
    if places == [] then 0
    else
      var k := |places| - 1;
      CountedOn(places[..k], numbers[..k], n) + if numbers[k] == n && places[k] != Left then 1 else 0
  }

  lemma {:induction false} CountedAtMost(places: seq<Place>, numbers: seq<int>, n: int)
    requires |numbers| == |places|
    ensures CountedOn(places, numbers, n) <= |places|
  {
    if places != [] { CountedAtMost(places[..|places| - 1], numbers[..|places| - 1], n); }
  }

  lemma CountedAppend(places: seq<Place>, numbers: seq<int>, p: Place, number: int, n: int)
    requires |numbers| == |places| && p != Left
    ensures CountedOn(places + [p], numbers + [number], n) == CountedOn(places, numbers, n) + if number == n then 1 else 0
  {
    assert (places + [p])[..|places|] == places && (numbers + [number])[..|places|] == numbers;
  }

  lemma {:induction false} CountedUpdate(places: seq<Place>, numbers: seq<int>, i: nat, p: Place, n: int)
    requires |numbers| == |places| && i < |places| && places[i] != Left
    ensures CountedOn(places[i := p], numbers, n)
         == CountedOn(places, numbers, n) - if p == Left && numbers[i] == n then 1 else 0
  {
    var k := |places| - 1;
    if i == k {
      assert places[i := p][..k] == places[..k];
    } else {
      assert places[i := p][..k] == places[..k][i := p];
      CountedUpdate(places[..k], numbers[..k], i, p, n);
    }
  }

  /** Each worker's count is the number of connections counted on it and still there. */
  ghost predicate CountsRight(s: Server)
    requires |s.numbers| == |s.places|
  {
    forall n: nat | n < |s.pool.workers| :: L.Clients(s.pool.workers[n]) == CountedOn(s.places, s.numbers, n)
  }

  ghost predicate BooksRight(s: Server) {
    Inv(s) && EntriesRight(s) && (s.listening ==> L.Sound(s.pool) && CountsRight(s))
  }

  /** A connection for which a running worker is overwritten. */
  ghost predicate OverwritesNow(s: Server, e: Event) {
    e.Accept? && s.listening && FirstFree(s.table.slots) < |s.table.slots| && L.Overwrites(s.pool)
  }

  lemma AcceptPool(s: Server, limit: int, fd: nat, color: int, h: bool)
    requires s.listening && FirstFree(s.table.slots) < |s.table.slots| && |s.numbers| == |s.places|
    ensures var s' := AcceptStep(s, limit, fd, color, h);
            var (q, o) := L.Connect(s.pool, limit, h);
            && s'.pool == q
            && (s'.listening <==> o.Launched? || o.Assigned? || o.ServerFull?)
            && (s'.listening ==>
                  && s'.numbers == s.numbers + [if o.ServerFull? then -1 else o.worker]
                  && |s'.places| == |s.places| + 1 && s'.places == s.places + [s'.places[|s.places|]]
                  && s'.places[|s.places|] != Left)
  {
  }

  lemma AcceptedCounts(s: Server, limit: int, fd: nat, color: int, h: bool)
    requires BooksRight(s) && s.listening && FirstFree(s.table.slots) < |s.table.slots|
    requires |s.pool.workers| > 0 && |s.places| < L.INT_MAX
    ensures var s' := AcceptStep(s, limit, fd, color, h);
            && |s'.numbers| == |s'.places| == |s.places| + 1
            && (L.Overwrites(s.pool) ==> s'.listening)
            && (s'.listening ==> (CountsRight(s') <==> !L.Overwrites(s.pool)))
            && (!L.Overwrites(s.pool) ==> L.Sound(s'.pool))
  {
    var s' := AcceptStep(s, limit, fd, color, h);
    var (q, o) := L.Connect(s.pool, limit, h);
    var K := |s.pool.workers|;
    var ns: seq<int> := seq(K, w => CountedOn(s.places, s.numbers, w));
    forall w | 0 <= w < K ensures L.Clients(s.pool.workers[w]) == ns[w] <= |s.places| {
      CountedAtMost(s.places, s.numbers, w);
    }
    AcceptShape(s, limit, fd, color, h);
    AcceptPool(s, limit, fd, color, h);
    L.JoinIsExact(s.pool, limit, h, |s.places|);
    L.JoinCountsIff(s.pool, limit, h, |s.places|);
    L.BookedStepIff(s.pool, limit, L.Join(h), ns, |s.places|);
    if s'.listening {
      var ns' := L.Booked(s.pool, limit, L.Join(h), ns);
      forall w: nat | w < K ensures ns'[w] == CountedOn(s'.places, s'.numbers, w) {
        CountedAppend(s.places, s.numbers, s'.places[|s.places|], s'.numbers[|s.places|], w);
      }
    }
  }

  /** What handling a note does to the load balancer's books. */
  lemma HandlePool(t: Table, p: L.Pool, queueSize: nat, m: B.Note)
    requires m.thread < |p.workers| && Ids(t.slots) != []
    ensures var (_, q, result) := B.Handle(t, p, queueSize, m);
            result == B.Done ==>
              if m.fields.action == ActionName(CL_DISCONNECTED) then L.Disconnect(p, m.thread) == Some(q) else q == p
  {
  }

  lemma HandledCounts(s: Server, queueSize: nat, k: nat)
    requires BooksRight(s) && s.listening && HandleStep(s, queueSize, k).listening
    ensures var s' := HandleStep(s, queueSize, k);
            && |s'.numbers| == |s'.places| == |s.places| && |s'.pool.workers| == |s.pool.workers|
            && L.Sound(s'.pool) && CountsRight(s')
  {
    if k < |s.posts| && Ids(s.table.slots) != [] {
      var p, s' := s.posts[k], HandleStep(s, queueSize, k);
      NamesDiffer(p.frame.action);
      HandlePool(s.table, s.pool, queueSize, NoteOf(p));
      if IsFarewell(p) {
        assert IsAt(s, p.conn, Leaving) && Numbered(s, p.conn, p.number);
        L.LeaveIsExact(s.pool, p.number);
        L.LeaveIsSound(s.pool, 0, p.number);
        forall n: nat | n < |s.pool.workers| ensures L.Clients(s'.pool.workers[n]) == CountedOn(s'.places, s'.numbers, n) {
          CountedUpdate(s.places, s.numbers, p.conn, Left, n);
        }
      }
    }
  }

  /** A worker's step moves connections from place to place, and lets nobody go. */
  lemma WorkersKeepCounts(s: Server, limit: int, queueSize: nat, e: Event)
    requires BooksRight(s) && s.listening && ByWorker(e)
    ensures var s' := Step(s, limit, queueSize, e);
            s'.listening && s'.pool == s.pool && |s'.places| == |s.places| && s'.numbers == s.numbers && CountsRight(s')
  {
    var s' := Step(s, limit, queueSize, e);
    if s'.places != s.places {
      var id := if e.Fetch? then s.orders[e.which].id else IdAt(s, e.thread, e.entry);
      if e.Sweep? { EntryHasRecord(s, e.thread, e.entry); }
      assert e.Fetch? ==> IsAt(s, id, Queued);
      forall n: nat | n < |s.pool.workers|
        ensures CountedOn(s'.places, s'.numbers, n) == CountedOn(s.places, s.numbers, n)
      {
        CountedUpdate(s.places, s.numbers, id, s'.places[id], n);
      }
    }
  }

  lemma CountsStepIff(s: Server, limit: int, queueSize: nat, e: Event)
    requires BooksRight(s) && |s.pool.workers| > 0 && |s.places| < L.INT_MAX
    ensures var s' := Step(s, limit, queueSize, e);
            && Inv(s') && EntriesRight(s') && |s'.pool.workers| == |s.pool.workers| && |s'.places| <= |s.places| + 1
            && ((s'.listening ==> CountsRight(s')) <==> !OverwritesNow(s, e))
            && (!OverwritesNow(s, e) ==> BooksRight(s'))
  {
    StepKeeps(s, limit, queueSize, e);
    StepKeepsEntries(s, limit, queueSize, e);
    var s' := Step(s, limit, queueSize, e);
    match e
    case Accept(fd, color, h) =>
      if s.listening && FirstFree(s.table.slots) < |s.table.slots| { AcceptedCounts(s, limit, fd, color, h); }
    case HandlePost(k) =>
      HandledSize(s, queueSize, k);
      if s'.listening { HandledCounts(s, queueSize, k); }
    case _ =>
      WorkersKeepSize(s, limit, queueSize, e);
      if s.listening { WorkersKeepCounts(s, limit, queueSize, e); }
  }

  lemma HandledSize(s: Server, queueSize: nat, k: nat)
    ensures var s' := HandleStep(s, queueSize, k);
            |s'.pool.workers| == |s.pool.workers| && |s'.places| == |s.places| && (s'.listening ==> s.listening)
  {
  }

  lemma WorkersKeepSize(s: Server, limit: int, queueSize: nat, e: Event)
    requires ByWorker(e)
    ensures var s' := Step(s, limit, queueSize, e);
            s'.pool == s.pool && |s'.places| == |s.places| && s'.listening == s.listening
  {
  }

  ghost predicate NeverOverwritten(s: Server, limit: int, queueSize: nat, run: seq<Event>)
    decreases |run|
  {
    run == []
    || (!OverwritesNow(s, run[0]) && NeverOverwritten(Step(s, limit, queueSize, run[0]), limit, queueSize, run[1..]))
  }

  /** In every state of the run with the listener at work. */
  ghost predicate CountsAlwaysRight(s: Server, limit: int, queueSize: nat, run: seq<Event>)
    decreases |run|
  {
    && |s.numbers| == |s.places| && (s.listening ==> CountsRight(s))
    && (run == [] || CountsAlwaysRight(Step(s, limit, queueSize, run[0]), limit, queueSize, run[1..]))
  }

  lemma {:induction false} CountsInRun(s: Server, limit: int, queueSize: nat, run: seq<Event>)
    requires BooksRight(s) && |s.pool.workers| > 0 && |s.places| + |run| < L.INT_MAX
    ensures CountsAlwaysRight(s, limit, queueSize, run) <==> NeverOverwritten(s, limit, queueSize, run)
    decreases |run|
  {
    if run != [] {
      var next := Step(s, limit, queueSize, run[0]);
      CountsStepIff(s, limit, queueSize, run[0]);
      if !OverwritesNow(s, run[0]) { CountsInRun(next, limit, queueSize, run[1..]); }
    }
  }

  /** In any run of the whole server of fewer than 2^31 - 1 events, workers interleaving in any way: in every state in
      which the listener is at work each worker's count is the number of connections it was chosen for and has not
      been left by, exactly when no connection has a running worker overwritten. */
  lemma EachCountIsItsConnections(clients: nat, threads: nat, limit: int, queueSize: nat, run: seq<Event>)
    requires threads > 0 && |run| < L.INT_MAX
    ensures CountsAlwaysRight(Start(clients, threads), limit, queueSize, run)
            <==> NeverOverwritten(Start(clients, threads), limit, queueSize, run)
  {
    StartIsRight(clients, threads);
    L.FreshIsSound(threads);
    CountsInRun(Start(clients, threads), limit, queueSize, run);
  }
}
