/** The whole server at work: the listener accepts connections, spreads them over worker threads and handles
    what they push; every worker serves a list of connections, sweeps the departed ones and takes new ones. Each
    step of a worker looks its connection up in the table the listener changes. */
module WorkerLoop {
  import opened Wrappers
  import opened Resources
  import opened ClientTable
  import L = LoadBalancer
  import B = Broadcast
  import M = ServerMessage
  import opened Handshake

  /** A worker thread: its number, and the descriptors and ids it serves. Threads are known by the order in
      which they were started; two may have the same number. */
  datatype Thread = Thread(number: int, clients: seq<(int, int)>)

  /** A new connection on its way to a worker. */
  datatype Assignment = Assignment(number: int, fd: int, id: int)

  /** What a worker pushes to the listener, and for which connection. */
  datatype Post = Post(conn: int, number: int, frame: Frame)

  /** Where a connection is: on the way to a worker, served by thread `thread`, dropped on the way, announced as
      gone, or gone. */
  datatype Place = Queued | Listed(thread: nat) | Lost | Leaving | Left

  /** `pushed`, `places` and `numbers` are bookkeeping: all posts so far, where each id given out is, and the worker
      the load balancer counted it on, -1 if none. */
  datatype Server = Server(
    table: Table, pool: L.Pool, threads: seq<Thread>, orders: seq<Assignment>, posts: seq<Post>, listening: bool,
    pushed: seq<Post>, places: seq<Place>, numbers: seq<int>)

  datatype Event =
    | Accept(fd: nat, color: int, handoff: bool)       // listener: a connection
    | HandlePost(which: nat)                           // listener: pop a post, not always the oldest
    | Fetch(thread: nat, which: nat)                   // worker: pop an assignment
    | Input(thread: nat, entry: nat, frame: Frame)     // worker: a frame from one of its connections
    | EndOfFile(thread: nat, entry: nat)               // worker: one of its connections has closed
    | Output(thread: nat, entry: nat)                  // worker: one of its sockets can be written
    | Sweep(thread: nat, entry: nat, leftover: string) // worker: let go of a connection that is marked; the
                                                       // content of the shared message object goes along

  // ---------------------------------------------------------------- the listener

  /** Decimal digits. */
  function Numeral(n: int): string
    decreases if n < 0 then 1 - n else n
  {
    if n < 0 then "-" + Numeral(-n)
    else if n < 10 then [('0' as int + n) as char]
    else Numeral(n / 10) + Numeral(n % 10)
  }

  /** The message a post is on the listener's side. Only a farewell carries the worker's number. */
  function NoteOf(p: Post): B.Note
    requires p.number >= 0
  {
    var f := p.frame;
    var number := if IsFarewell(p) then Numeral(p.number) else "";
    B.Note(M.Fields(number, ActionName(f.action), "", Field(f.id), f.name, Field(f.color), "", f.content),
           if f.id.Some? then f.id.value else 0, p.number)
  }

  /** An absent number is an empty field. */
  function Field(n: Option<int>): string { if n.Some? then Numeral(n.value) else "" }

  function Without<T>(s: seq<T>, k: nat): seq<T>
    requires k < |s|
  {
    s[..k] + s[k + 1..]
  }

  /** A connection that finds a free slot. */
  function AcceptStep(s: Server, limit: int, fd: nat, color: int, handoff: bool): Server {
    if !s.listening || FirstFree(s.table.slots) == |s.table.slots| then s
    else
      var (t, (_, id)) := ClientTable.Accept(s.table, fd, color);
      var (p, o) := L.Connect(s.pool, limit, handoff);
      var s' := s.(table := t, pool := p);
      match o
      case Launched(i) =>
        s'.(threads := s.threads + [Thread(i, [(fd, id)])], places := s.places + [Listed(|s.threads|)],
            numbers := s.numbers + [i])
      case Assigned(i) =>
        s'.(orders := s.orders + [Assignment(i, fd, id)], places := s.places + [Queued], numbers := s.numbers + [i])
      case HandoffFailed(i) => s'.(places := s.places + [Lost], numbers := s.numbers + [i], listening := false)
      case ServerFull => s'.(places := s.places + [Lost], numbers := s.numbers + [-1])
      case Undefined => s'.(places := s.places + [Lost], numbers := s.numbers + [-1], listening := false)
  }

  predicate IsFarewell(p: Post) { p.frame.action == CL_DISCONNECTED }

  /** Pops a post and handles it; an exception ends the loop. */
  function HandleStep(s: Server, queueSize: nat, k: nat): Server {
    if !s.listening || k >= |s.posts| then s
    else
      var p, s' := s.posts[k], s.(posts := Without(s.posts, k));
      if Ids(s.table.slots) == [] then s'
      else if p.frame.id.None? || !(0 <= p.number < |s.pool.workers|) then s'.(listening := false)
      else
        var (t, pool, result) := B.Handle(s.table, s.pool, queueSize, NoteOf(p));
        s'.(table := t, pool := pool, listening := result == B.Done,
            places := if IsFarewell(p) && 0 <= p.conn < |s.places| then s.places[p.conn := Left] else s.places)
  }

  // ---------------------------------------------------------------- the workers

  /** A worker whose list is empty has ended. */
  function FetchStep(s: Server, w: nat, k: nat): Server {
    if w >= |s.threads| || s.threads[w].clients == [] || k >= |s.orders| then s
    else
      var o, th := s.orders[k], s.threads[w];
      var s' := s.(orders := Without(s.orders, k));
      if o.number == th.number then
        s'.(threads := s.threads[w := th.(clients := th.clients + [(o.fd, o.id)])], places := Placed(s.places, o.id, Listed(w)))
      else s'.(places := Placed(s.places, o.id, Lost))
  }

  function Placed(places: seq<Place>, id: int, p: Place): seq<Place> {
    if 0 <= id < |places| then places[id := p] else places
  }

  function PushOne(s: Server, p: Post): Server { s.(posts := s.posts + [p], pushed := s.pushed + [p]) }

  predicate Serves(s: Server, w: nat, j: nat) { w < |s.threads| && j < |s.threads[w].clients| }

  /** The id served at an entry, and its slot in the table; beyond the slots there is no record. */
  function IdAt(s: Server, w: nat, j: nat): int
    requires Serves(s, w, j)
  {
    s.threads[w].clients[j].1
  }

  function SlotAt(s: Server, w: nat, j: nat): nat
    requires Serves(s, w, j)
  {
    Find(s.table.slots, IdAt(s, w, j))
  }

  /** Changes the record at an entry and pushes what there is to push. */
  function Served(s: Server, w: nat, j: nat, r: Record, out: seq<Frame>): Server
    requires Serves(s, w, j) && SlotAt(s, w, j) < |s.table.slots|
  {
    var s' := s.(table := s.table.(slots := s.table.slots[SlotAt(s, w, j) := Some(r)]));
    if out == [] then s' else PushOne(s', Post(IdAt(s, w, j), s.threads[w].number, out[0]))
  }

  function RecordAt(s: Server, w: nat, j: nat): Record
    requires Serves(s, w, j) && SlotAt(s, w, j) < |s.table.slots|
  {
    s.table.slots[SlotAt(s, w, j)].value
  }

  function InputStep(s: Server, w: nat, j: nat, f: Frame): Server {
    if !Serves(s, w, j) || SlotAt(s, w, j) == |s.table.slots| then s
    else
      var (r, _, out) := ServerInput(RecordAt(s, w, j), f);
      Served(s, w, j, r, out)
  }

  function EndOfFileStep(s: Server, w: nat, j: nat): Server {
    if !Serves(s, w, j) || SlotAt(s, w, j) == |s.table.slots| then s
    else Served(s, w, j, RecordAt(s, w, j).(state := DISCONNECT_STATE), [])
  }

  /** Sends the confirmation, or all that is queued for the connection. */
  function OutputStep(s: Server, w: nat, j: nat): Server {
    if !Serves(s, w, j) || SlotAt(s, w, j) == |s.table.slots| then s
    else
      var r := ServerOutput(RecordAt(s, w, j)).0;
      Served(s, w, j, if r.state == INITIALIZED then r.(queue := []) else r, [])
  }

  function SweepStep(s: Server, w: nat, j: nat, leftover: string): Server {
    if !Serves(s, w, j) || SlotAt(s, w, j) == |s.table.slots| then s
    else
      var th, r := s.threads[w], RecordAt(s, w, j);
      if r.state != DISCONNECT_STATE then s
      else
        var id := IdAt(s, w, j);
        PushOne(s, Post(id, th.number, Farewell(r).(content := leftover)))
          .(threads := s.threads[w := th.(clients := Without(th.clients, j))], places := Placed(s.places, id, Leaving))
  }

  function Step(s: Server, limit: int, queueSize: nat, e: Event): Server {
    match e
    case Accept(fd, color, h) => AcceptStep(s, limit, fd, color, h)
    case HandlePost(k) => HandleStep(s, queueSize, k)
    case Fetch(w, k) => FetchStep(s, w, k)
    case Input(w, j, f) => InputStep(s, w, j, f)
    case EndOfFile(w, j) => EndOfFileStep(s, w, j)
    case Output(w, j) => OutputStep(s, w, j)
    case Sweep(w, j, c) => SweepStep(s, w, j, c)
  }

  function Run(s: Server, limit: int, queueSize: nat, run: seq<Event>): Server
    decreases |run|
  {
    if run == [] then s else Run(Step(s, limit, queueSize, run[0]), limit, queueSize, run[1..])
  }

  function Start(clients: nat, threads: nat): Server {
    Server(Table(seq(clients, _ => None), 0, 0), L.Fresh(threads), [], [], [], true, [], [], [])
  }

  // ---------------------------------------------------------------- states of records

  /** The state of the record with an id, if it is in the table. */
  function StateOf(t: Table, id: int): Option<int> {
    var i := Find(t.slots, id);
    if i < |t.slots| then Some(t.slots[i].value.state) else None
  }

  lemma StateAt(t: Table, i: nat, id: int)
    requires IdsDiffer(t.slots) && i < |t.slots| && HasId(t.slots[i], id)
    ensures Find(t.slots, id) == i && StateOf(t, id) == Some(t.slots[i].value.state)
  {
  }

  lemma SetKeepsTable(t: Table, i: nat, r: Record)
    requires TableInv(t) && i < |t.slots| && t.slots[i].Some? && r.id == t.slots[i].value.id
    ensures var t' := t.(slots := t.slots[i := Some(r)]);
            && TableInv(t') && StateOf(t', r.id) == Some(r.state)
            && forall id | id != r.id :: StateOf(t', id) == StateOf(t, id)
  {
    var t' := t.(slots := t.slots[i := Some(r)]);
    OccupiedUpdate(t.slots, i, Some(r));
    StateAt(t', i, r.id);
    forall id | id != r.id ensures StateOf(t', id) == StateOf(t, id) {
      SameFind(t.slots, t'.slots, id);
    }
  }

  /** The same slots hold the id, and with the same record. */
  lemma {:induction false} SameFind(a: seq<Option<Record>>, b: seq<Option<Record>>, id: int)
    requires |a| == |b| && forall i | 0 <= i < |a| :: HasId(a[i], id) == HasId(b[i], id)
    ensures Find(a, id) == Find(b, id)
  {
    if a != [] && !HasId(a[0], id) { SameFind(a[1..], b[1..], id); }
  }

  lemma AcceptKeepsStates(t: Table, fd: nat, color: int)
    requires TableInv(t) && FirstFree(t.slots) < |t.slots|
    ensures var (t', (_, id)) := ClientTable.Accept(t, fd, color);
            && TableInv(t') && id == t.nextId && t'.nextId == id + 1 && StateOf(t', id) == Some(INITIAL_STATE)
            && forall other | other != id :: StateOf(t', other) == StateOf(t, other)
  {
    AcceptKeepsTable(t, fd, color);
    var t' := ClientTable.Accept(t, fd, color).0;
    StateAt(t', FirstFree(t.slots), t.nextId);
    forall other | other != t.nextId ensures StateOf(t', other) == StateOf(t, other) {
      SameFind(t.slots, t'.slots, other);
    }
  }

  /** Repeated unicast changes queues only, and only by adding to them, whether or not it gets to its end. */
  ghost predicate OnlyQueuesDiffer(a: seq<Option<Record>>, b: seq<Option<Record>>) {
    && |a| == |b|
    && forall i | 0 <= i < |a| ::
         && a[i].Some? == b[i].Some?
         && (a[i].Some? ==> b[i].value == a[i].value.(queue := b[i].value.queue) && a[i].value.queue <= b[i].value.queue)
  }

  lemma {:induction false} UnicastChangesQueues(slots: seq<Option<Record>>, queueSize: nat, excepted: int, ids: seq<int>,
                                                msg: string)
    ensures OnlyQueuesDiffer(slots, Unicast(slots, queueSize, excepted, ids, msg).0)
    decreases ids
  {
    if ids != [] {
      var i := Find(slots, ids[0]);
      if excepted == ids[0] || i == |slots| {
        UnicastChangesQueues(slots, queueSize, excepted, ids[1..], msg);
      } else if |slots[i].value.queue| < queueSize {
        UnicastChangesQueues(Enqueue(slots, i, msg), queueSize, excepted, ids[1..], msg);
      }
    }
  }

  lemma QueuesKeepStates(t: Table, slots: seq<Option<Record>>)
    requires TableInv(t) && OnlyQueuesDiffer(t.slots, slots)
    ensures TableInv(t.(slots := slots)) && forall id :: StateOf(t.(slots := slots), id) == StateOf(t, id)
  {
    B.SameOccupied(t.slots, slots);
    forall id ensures StateOf(t.(slots := slots), id) == StateOf(t, id) { SameFind(t.slots, slots, id); }
  }

  /** Whatever the outcome, handling a note removes the departed client and changes no other state. */
  lemma HandleKeepsStates(t: Table, p: L.Pool, queueSize: nat, m: B.Note)
    requires TableInv(t) && m.thread < |p.workers| && Ids(t.slots) != []
    ensures var (t', p', result) := B.Handle(t, p, queueSize, m);
            && TableInv(t') && t'.nextId == t.nextId
            && (forall id :: StateOf(t', id) ==
                  if m.fields.action == ActionName(CL_DISCONNECTED) && id == m.id then None else StateOf(t, id))
            && (result == B.ClientNotFound ==> StateOf(t, m.id) == None)
  {
    if B.EntryOf(m).Some? {
      var ids, e := Ids(t.slots), B.EntryOf(m).value;
      if m.fields.action == ActionName(CL_DISCONNECTED) {
        var d := Disconnect(t, m.id);
        if d.Some? {
          DisconnectKeepsStates(t, m.id);
          UnicastChangesQueues(d.value.slots, queueSize, e.excepted, ids, e.text);
          QueuesKeepStates(d.value, Unicast(d.value.slots, queueSize, e.excepted, ids, e.text).0);
        }
      } else {
        UnicastChangesQueues(t.slots, queueSize, e.excepted, ids, e.text);
        QueuesKeepStates(t, Unicast(t.slots, queueSize, e.excepted, ids, e.text).0);
      }
    }
  }

  lemma DisconnectKeepsStates(t: Table, id: int)
    requires TableInv(t) && Disconnect(t, id).Some?
    ensures var t' := Disconnect(t, id).value;
            && TableInv(t') && t'.nextId == t.nextId
            && forall other :: StateOf(t', other) == if other == id then None else StateOf(t, other)
  {
    DisconnectKeepsTable(t, id);
    var t' := Disconnect(t, id).value;
    forall other ensures StateOf(t', other) == if other == id then None else StateOf(t, other) {
      if other != id { SameFind(t.slots, t'.slots, other); }
    }
  }

  // ---------------------------------------------------------------- the invariant

  /** The frames pushed for one connection, in order. */
  function Of(pushed: seq<Post>, id: int): seq<Frame> {
    if pushed == [] then []
    else
      var p := pushed[|pushed| - 1];
      Of(pushed[..|pushed| - 1], id) + if p.conn == id then [p.frame] else []
  }

  lemma OfAppend(pushed: seq<Post>, p: Post, id: int)
    ensures Of(pushed + [p], id) == Of(pushed, id) + if p.conn == id then [p.frame] else []
  {
    assert (pushed + [p])[..|pushed|] == pushed;
  }

  predicate Ended(out: seq<Frame>) {
    out != [] && out[|out| - 1].action == CL_DISCONNECTED && Session(out[..|out| - 1])
  }

  /** What has been pushed for a connection, and the state of its record, by place. */
  predicate Talk(p: Place, out: seq<Frame>, state: Option<int>) {
    match p
    case Queued => out == [] && state == Some(INITIAL_STATE)
    case Lost => out == [] && state.Some?
    case Listed(_) =>
      && state.Some? && DISCONNECT_STATE <= state.value <= INITIALIZED && Session(out)
      && (INITIAL_STATE <= state.value < INITIALIZED ==> out == [])
      && (state.value == INITIALIZED ==> out != [])
    case Leaving => Ended(out) && state == Some(DISCONNECT_STATE)
    case Left => Ended(out) && state.None?
  }

  predicate IsAt(s: Server, id: int, p: Place) { 0 <= id < |s.places| && s.places[id] == p }

  predicate ListsRight(s: Server) {
    forall w | 0 <= w < |s.threads| ::
      && (forall j | 0 <= j < |s.threads[w].clients| :: IsAt(s, s.threads[w].clients[j].1, Listed(w)))
      && (forall j, k | 0 <= j < k < |s.threads[w].clients| :: s.threads[w].clients[j].1 != s.threads[w].clients[k].1)
  }

  predicate OrdersRight(s: Server) {
    && (forall k | 0 <= k < |s.orders| :: IsAt(s, s.orders[k].id, Queued))
    && (forall j, k | 0 <= j < k < |s.orders| :: s.orders[j].id != s.orders[k].id)
  }

  predicate PostsRight(s: Server) {
    && (forall k | 0 <= k < |s.posts| && IsFarewell(s.posts[k]) ::
          s.posts[k].frame.id == Some(s.posts[k].conn) && IsAt(s, s.posts[k].conn, Leaving))
    && (forall j, k | 0 <= j < k < |s.posts| && IsFarewell(s.posts[j]) && IsFarewell(s.posts[k]) ::
          s.posts[j].conn != s.posts[k].conn)
  }

  predicate TalkAt(s: Server, id: int) {
    if 0 <= id < |s.places| then Talk(s.places[id], Of(s.pushed, id), StateOf(s.table, id))
    else Of(s.pushed, id) == []
  }

  ghost predicate TalkRight(s: Server) { forall id: int :: TalkAt(s, id) }

  ghost predicate Inv(s: Server) {
    && TableInv(s.table) && |s.places| == s.table.nextId
    && ListsRight(s) && OrdersRight(s) && PostsRight(s) && TalkRight(s)
  }

  lemma StartIsRight(clients: nat, threads: nat)
    ensures Inv(Start(clients, threads))
  {
    OccupiedAll(Start(clients, threads).table.slots);
  }

  // ---------------------------------------------------------------- every step keeps it

  /** Places of the kind `p` are kept. */
  ghost predicate KeepsPlaces(s: Server, s': Server, p: Place) { forall id | IsAt(s, id, p) :: IsAt(s', id, p) }

  lemma SameLists(s: Server, s': Server)
    requires ListsRight(s) && s'.threads == s.threads && forall w: nat :: KeepsPlaces(s, s', Listed(w))
    ensures ListsRight(s')
  {
    forall w, j | 0 <= w < |s.threads| && 0 <= j < |s.threads[w].clients|
      ensures IsAt(s', s.threads[w].clients[j].1, Listed(w))
    {
      assert KeepsPlaces(s, s', Listed(w)) && IsAt(s, s.threads[w].clients[j].1, Listed(w));
    }
  }

  lemma SameOrders(s: Server, s': Server)
    requires OrdersRight(s) && s'.orders == s.orders && KeepsPlaces(s, s', Queued)
    ensures OrdersRight(s')
  {
  }

  lemma SamePosts(s: Server, s': Server)
    requires PostsRight(s) && s'.posts == s.posts && KeepsPlaces(s, s', Leaving)
    ensures PostsRight(s')
  {
  }

  lemma AcceptedTalk(s: Server, s': Server, p: Place)
    requires TalkRight(s) && s'.places == s.places + [p] && s'.pushed == s.pushed
    requires p.Queued? || p.Lost? || p.Listed?
    requires StateOf(s'.table, |s.places|) == Some(INITIAL_STATE)
    requires forall id | id != |s.places| :: StateOf(s'.table, id) == StateOf(s.table, id)
    ensures TalkRight(s')
  {
    forall id: int ensures TalkAt(s', id) { assert TalkAt(s, id); }
  }

  lemma LaunchedLists(s: Server, s': Server, th: Thread)
    requires ListsRight(s) && s'.threads == s.threads + [th] && s'.places == s.places + [Listed(|s.threads|)]
    requires |th.clients| == 1 && th.clients[0].1 == |s.places|
    ensures ListsRight(s')
  {
  }

  lemma AssignedOrders(s: Server, s': Server, a: Assignment)
    requires OrdersRight(s) && s'.orders == s.orders + [a] && s'.places == s.places + [Queued] && a.id == |s.places|
    ensures OrdersRight(s')
  {
  }

  /** A new id starts on a list, on its way, or lost. */
  lemma AcceptShape(s: Server, limit: int, fd: nat, color: int, h: bool)
    requires s.listening && FirstFree(s.table.slots) < |s.table.slots| && |s.places| == s.table.nextId
    ensures var s' := AcceptStep(s, limit, fd, color, h);
            && s'.table == ClientTable.Accept(s.table, fd, color).0 && s'.posts == s.posts && s'.pushed == s.pushed
            && |s'.numbers| == |s.numbers| + 1 && s'.numbers[..|s.numbers|] == s.numbers
            && var number := s'.numbers[|s.numbers|];
               || (s'.places == s.places + [Lost] && s'.threads == s.threads && s'.orders == s.orders)
               || (s'.places == s.places + [Queued] && s'.threads == s.threads
                   && s'.orders == s.orders + [Assignment(number, fd, |s.places|)])
               || (s'.places == s.places + [Listed(|s.threads|)] && s'.orders == s.orders
                   && s'.threads == s.threads + [Thread(number, [(fd, |s.places|)])])
  {
  }

  lemma AcceptKeeps(s: Server, limit: int, fd: nat, color: int, h: bool)
    requires Inv(s)
    ensures Inv(AcceptStep(s, limit, fd, color, h))
  {
    if s.listening && FirstFree(s.table.slots) < |s.table.slots| {
      AcceptKeepsStates(s.table, fd, color);
      AcceptShape(s, limit, fd, color, h);
      AcceptedKeeps(s, AcceptStep(s, limit, fd, color, h));
    }
  }

  lemma AcceptedKeeps(s: Server, s': Server)
    requires ListsRight(s) && OrdersRight(s) && PostsRight(s) && TalkRight(s) && |s.places| == s.table.nextId
    requires TableInv(s'.table) && s'.table.nextId == |s.places| + 1
    requires StateOf(s'.table, |s.places|) == Some(INITIAL_STATE)
    requires forall id | id != |s.places| :: StateOf(s'.table, id) == StateOf(s.table, id)
    requires s'.posts == s.posts && s'.pushed == s.pushed
    requires
      || (s'.places == s.places + [Lost] && s'.threads == s.threads && s'.orders == s.orders)
      || (s'.places == s.places + [Queued] && s'.threads == s.threads
          && exists i, fd :: s'.orders == s.orders + [Assignment(i, fd, |s.places|)])
      || (s'.places == s.places + [Listed(|s.threads|)] && s'.orders == s.orders
          && exists i, fd :: s'.threads == s.threads + [Thread(i, [(fd, |s.places|)])])
    ensures Inv(s')
  {
    AcceptedTalk(s, s', s'.places[|s.places|]);
    SamePosts(s, s');
    if s'.threads == s.threads {
      SameLists(s, s');
    } else {
      LaunchedLists(s, s', s'.threads[|s.threads|]);
    }
    if s'.orders == s.orders {
      SameOrders(s, s');
    } else {
      AssignedOrders(s, s', s'.orders[|s.orders|]);
    }
  }

  /** Taking an element out leaves the others as they were. */
  lemma WithoutIsPart<T>(s: seq<T>, k: nat)
    requires k < |s|
    ensures |Without(s, k)| == |s| - 1
    ensures forall j | 0 <= j < |s| - 1 :: Without(s, k)[j] == s[if j < k then j else j + 1]
  {
  }

  lemma PoppedPosts(s: Server, s': Server, k: nat)
    requires PostsRight(s) && k < |s.posts| && s'.posts == Without(s.posts, k)
    requires s'.places == s.places || (IsFarewell(s.posts[k]) && s'.places == Placed(s.places, s.posts[k].conn, Left))
    ensures PostsRight(s')
  {
    WithoutIsPart(s.posts, k);
  }

  lemma HandleKeeps(s: Server, queueSize: nat, k: nat)
    requires Inv(s)
    ensures Inv(HandleStep(s, queueSize, k))
  {
    if s.listening && k < |s.posts| {
      var p, s' := s.posts[k], HandleStep(s, queueSize, k);
      PoppedPosts(s, s', k);
      if Ids(s.table.slots) != [] && p.frame.id.Some? && 0 <= p.number < |s.pool.workers| {
        NamesDiffer(p.frame.action);
        HandleKeepsStates(s.table, s.pool, queueSize, NoteOf(p));
        if IsFarewell(p) {
          DepartedKeeps(s, s', p.conn);
        } else {
          SameTalk(s, s');
          SameLists(s, s');
          SameOrders(s, s');
        }
      } else {
        SameTalk(s, s');
        SameLists(s, s');
        SameOrders(s, s');
      }
    }
  }

  lemma SameTalk(s: Server, s': Server)
    requires TalkRight(s) && s'.places == s.places && s'.pushed == s.pushed
    requires forall id :: StateOf(s'.table, id) == StateOf(s.table, id)
    ensures TalkRight(s')
  {
    forall id: int ensures TalkAt(s', id) { assert TalkAt(s, id); }
  }

  /** The listener has let the client go. */
  lemma DepartedKeeps(s: Server, s': Server, id: int)
    requires ListsRight(s) && OrdersRight(s) && TalkRight(s) && IsAt(s, id, Leaving)
    requires s'.places == s.places[id := Left] && s'.pushed == s.pushed && s'.threads == s.threads && s'.orders == s.orders
    requires forall other :: StateOf(s'.table, other) == if other == id then None else StateOf(s.table, other)
    ensures ListsRight(s') && OrdersRight(s') && TalkRight(s')
  {
    SameLists(s, s');
    SameOrders(s, s');
    forall other: int ensures TalkAt(s', other) { assert TalkAt(s, other); }
  }

  lemma NamesDiffer(a: Action)
    ensures ActionName(a) == ActionName(CL_DISCONNECTED) <==> a == CL_DISCONNECTED
  {
  }

  lemma FetchedOrders(s: Server, s': Server, k: nat, p: Place)
    requires OrdersRight(s) && k < |s.orders| && s'.orders == Without(s.orders, k)
    requires s'.places == Placed(s.places, s.orders[k].id, p)
    ensures OrdersRight(s')
  {
    WithoutIsPart(s.orders, k);
    assert IsAt(s, s.orders[k].id, Queued);
  }

  lemma FetchedTalk(s: Server, s': Server, id: int, p: Place)
    requires TalkRight(s) && IsAt(s, id, Queued) && (p.Listed? || p.Lost?)
    requires s'.places == s.places[id := p] && s'.pushed == s.pushed && s'.table == s.table
    ensures TalkRight(s')
  {
    forall other: int ensures TalkAt(s', other) {
      assert TalkAt(s, other) && TalkAt(s, id);
    }
  }

  lemma FetchedLists(s: Server, s': Server, w: nat, fd: int, id: int)
    requires ListsRight(s) && w < |s.threads| && IsAt(s, id, Queued) && s'.places == s.places[id := Listed(w)]
    requires s'.threads == s.threads[w := s.threads[w].(clients := s.threads[w].clients + [(fd, id)])]
    ensures ListsRight(s')
  {
    forall v | 0 <= v < |s'.threads|
      ensures forall j | 0 <= j < |s'.threads[v].clients| :: IsAt(s', s'.threads[v].clients[j].1, Listed(v))
      ensures forall j, k | 0 <= j < k < |s'.threads[v].clients| :: s'.threads[v].clients[j].1 != s'.threads[v].clients[k].1
    {
      assert forall j | 0 <= j < |s.threads[v].clients| :: IsAt(s, s.threads[v].clients[j].1, Listed(v));
    }
  }

  lemma FetchKeeps(s: Server, w: nat, k: nat)
    requires Inv(s)
    ensures Inv(FetchStep(s, w, k))
  {
    if w < |s.threads| && s.threads[w].clients != [] && k < |s.orders| {
      var o, s' := s.orders[k], FetchStep(s, w, k);
      assert IsAt(s, o.id, Queued);
      var p := if o.number == s.threads[w].number then Listed(w) else Lost;
      FetchedOrders(s, s', k, p);
      FetchedTalk(s, s', o.id, p);
      SamePosts(s, s');
      if o.number == s.threads[w].number { FetchedLists(s, s', w, o.fd, o.id); } else { SameLists(s, s'); }
    }
  }

  /** An entry's record is in the table. */
  lemma EntryHasRecord(s: Server, w: nat, j: nat)
    requires Inv(s) && Serves(s, w, j)
    ensures var id := IdAt(s, w, j);
            && SlotAt(s, w, j) < |s.table.slots| && RecordAt(s, w, j).id == id && IsAt(s, id, Listed(w))
            && StateOf(s.table, id) == Some(RecordAt(s, w, j).state)
            && Talk(Listed(w), Of(s.pushed, id), StateOf(s.table, id))
  {
    assert IsAt(s, IdAt(s, w, j), Listed(w));
    assert TalkAt(s, IdAt(s, w, j));
  }

  lemma ServedKeeps(s: Server, w: nat, j: nat, r: Record, out: seq<Frame>)
    requires Inv(s) && Serves(s, w, j) && SlotAt(s, w, j) < |s.table.slots| && r.id == IdAt(s, w, j)
    requires |out| <= 1 && (out != [] ==> out[0].action != CL_DISCONNECTED)
    requires Talk(Listed(w), Of(s.pushed, r.id) + out, Some(r.state))
    ensures Inv(Served(s, w, j, r, out))
  {
    EntryHasRecord(s, w, j);
    SetKeepsTable(s.table, SlotAt(s, w, j), r);
    var s' := Served(s, w, j, r, out);
    SameLists(s, s');
    SameOrders(s, s');
    assert PostsRight(s');
    ServedTalk(s, s', w, r, s.threads[w].number, out);
  }

  lemma ServedTalk(s: Server, s': Server, w: nat, r: Record, number: int, out: seq<Frame>)
    requires TalkRight(s) && IsAt(s, r.id, Listed(w)) && s'.places == s.places && |out| <= 1
    requires s'.pushed == if out == [] then s.pushed else s.pushed + [Post(r.id, number, out[0])]
    requires StateOf(s'.table, r.id) == Some(r.state)
    requires forall id | id != r.id :: StateOf(s'.table, id) == StateOf(s.table, id)
    requires Talk(Listed(w), Of(s.pushed, r.id) + out, Some(r.state))
    ensures TalkRight(s')
  {
    forall id: int ensures TalkAt(s', id) {
      assert TalkAt(s, id);
      OfPushed(s.pushed, Post(r.id, number, if out == [] then BLANK else out[0]), out, id);
    }
  }

  lemma OfPushed(pushed: seq<Post>, p: Post, out: seq<Frame>, id: int)
    requires |out| <= 1 && (out != [] ==> p.frame == out[0])
    ensures Of(if out == [] then pushed else pushed + [p], id) == Of(pushed, id) + if p.conn == id then out else []
  {
    OfAppend(pushed, p, id);
    if out == [] { assert Of(pushed, id) + [] == Of(pushed, id); } else { assert out == [p.frame]; }
  }

  lemma InputKeeps(s: Server, w: nat, j: nat, f: Frame)
    requires Inv(s)
    ensures Inv(InputStep(s, w, j, f))
  {
    if Serves(s, w, j) {
      EntryHasRecord(s, w, j);
      var (r, _, out) := ServerInput(RecordAt(s, w, j), f);
      InputTalk(w, Of(s.pushed, r.id), RecordAt(s, w, j), f);
      ServedKeeps(s, w, j, r, out);
    }
  }

  lemma InputTalk(w: nat, before: seq<Frame>, r: Record, f: Frame)
    requires Talk(Listed(w), before, Some(r.state))
    ensures var (r', _, out) := ServerInput(r, f);
            && r'.id == r.id && |out| <= 1 && (out != [] ==> out[0].action != CL_DISCONNECTED)
            && Talk(Listed(w), before + out, Some(r'.state))
  {
    var (r', _, out) := ServerInput(r, f);
    if out == [] { assert before + out == before; }
  }

  lemma EndOfFileKeeps(s: Server, w: nat, j: nat)
    requires Inv(s)
    ensures Inv(EndOfFileStep(s, w, j))
  {
    if Serves(s, w, j) {
      EntryHasRecord(s, w, j);
      var r := RecordAt(s, w, j).(state := DISCONNECT_STATE);
      assert Of(s.pushed, r.id) + [] == Of(s.pushed, r.id);
      ServedKeeps(s, w, j, r, []);
    }
  }

  lemma OutputKeeps(s: Server, w: nat, j: nat)
    requires Inv(s)
    ensures Inv(OutputStep(s, w, j))
  {
    if Serves(s, w, j) {
      EntryHasRecord(s, w, j);
      var r := ServerOutput(RecordAt(s, w, j)).0;
      assert Of(s.pushed, r.id) + [] == Of(s.pushed, r.id);
      ServedKeeps(s, w, j, if r.state == INITIALIZED then r.(queue := []) else r, []);
    }
  }

  lemma SweepKeeps(s: Server, w: nat, j: nat, leftover: string)
    requires Inv(s)
    ensures Inv(SweepStep(s, w, j, leftover))
  {
    if Serves(s, w, j) {
      EntryHasRecord(s, w, j);
      var r := RecordAt(s, w, j);
      if r.state == DISCONNECT_STATE {
        var s', p := SweepStep(s, w, j, leftover), Post(r.id, s.threads[w].number, Farewell(r).(content := leftover));
        SweptLists(s, s', w, j);
        SameOrders(s, s');
        SweptPosts(s, s', w, p);
        SweptTalk(s, s', w, p);
      }
    }
  }

  lemma SweptLists(s: Server, s': Server, w: nat, j: nat)
    requires ListsRight(s) && Serves(s, w, j) && s'.places == Placed(s.places, IdAt(s, w, j), Leaving)
    requires s'.threads == s.threads[w := s.threads[w].(clients := Without(s.threads[w].clients, j))]
    ensures ListsRight(s')
  {
    WithoutIsPart(s.threads[w].clients, j);
    assert IsAt(s, IdAt(s, w, j), Listed(w));
    forall v | 0 <= v < |s'.threads|
      ensures forall k | 0 <= k < |s'.threads[v].clients| :: IsAt(s', s'.threads[v].clients[k].1, Listed(v))
      ensures forall i, k | 0 <= i < k < |s'.threads[v].clients| :: s'.threads[v].clients[i].1 != s'.threads[v].clients[k].1
    {
      assert forall k | 0 <= k < |s.threads[v].clients| :: IsAt(s, s.threads[v].clients[k].1, Listed(v));
    }
  }

  lemma SweptPosts(s: Server, s': Server, w: nat, p: Post)
    requires PostsRight(s) && IsAt(s, p.conn, Listed(w)) && s'.posts == s.posts + [p]
    requires s'.places == Placed(s.places, p.conn, Leaving) && p.frame.id == Some(p.conn)
    ensures PostsRight(s')
  {
  }

  lemma SweptTalk(s: Server, s': Server, w: nat, p: Post)
    requires TalkRight(s) && IsAt(s, p.conn, Listed(w)) && IsFarewell(p)
    requires StateOf(s.table, p.conn) == Some(DISCONNECT_STATE)
    requires s'.table == s.table && s'.pushed == s.pushed + [p] && s'.places == s.places[p.conn := Leaving]
    ensures TalkRight(s')
  {
    forall id: int ensures TalkAt(s', id) {
      assert TalkAt(s, id);
      OfAppend(s.pushed, p, id);
      assert (Of(s.pushed, id) + [p.frame])[..|Of(s.pushed, id)|] == Of(s.pushed, id);
    }
  }

  lemma StepKeeps(s: Server, limit: int, queueSize: nat, e: Event)
    requires Inv(s)
    ensures Inv(Step(s, limit, queueSize, e))
  {
    match e
    case Accept(fd, color, h) => AcceptKeeps(s, limit, fd, color, h);
    case HandlePost(k) => HandleKeeps(s, queueSize, k);
    case Fetch(w, k) => FetchKeeps(s, w, k);
    case Input(w, j, f) => InputKeeps(s, w, j, f);
    case EndOfFile(w, j) => EndOfFileKeeps(s, w, j);
    case Output(w, j) => OutputKeeps(s, w, j);
    case Sweep(w, j, c) => SweepKeeps(s, w, j, c);
  }

  lemma {:induction false} RunKeeps(s: Server, limit: int, queueSize: nat, run: seq<Event>)
    requires Inv(s)
    ensures Inv(Run(s, limit, queueSize, run))
    decreases |run|
  {
    if run != [] {
      StepKeeps(s, limit, queueSize, run[0]);
      RunKeeps(Step(s, limit, queueSize, run[0]), limit, queueSize, run[1..]);
    }
  }

  // ---------------------------------------------------------------- what holds in every run

  /** For every connection, with any number of connections per worker and of workers: what is pushed for it is
      nothing, or INIT_DONE and then chat messages, and after that at most one CL_DISCONNECTED. */
  lemma EveryConnectionSpeaksTheLanguage(clients: nat, threads: nat, limit: int, queueSize: nat, run: seq<Event>, id: int)
    ensures OutputLanguage(Of(Run(Start(clients, threads), limit, queueSize, run).pushed, id))
  {
    StartIsRight(clients, threads);
    RunKeeps(Start(clients, threads), limit, queueSize, run);
    var s := Run(Start(clients, threads), limit, queueSize, run);
    assert TalkAt(s, id);
  }

  /** A worker always finds the record of a connection on its list, and no connection is on two lists or twice
      on one. */
  lemma ListedClientsAreConnected(clients: nat, threads: nat, limit: int, queueSize: nat, run: seq<Event>)
    ensures var s := Run(Start(clients, threads), limit, queueSize, run);
            && (forall w, j | Serves(s, w, j) :: StateOf(s.table, IdAt(s, w, j)).Some?)
            && (forall w, j, v, k | Serves(s, w, j) && Serves(s, v, k) && IdAt(s, w, j) == IdAt(s, v, k) :: w == v && j == k)
  {
    StartIsRight(clients, threads);
    RunKeeps(Start(clients, threads), limit, queueSize, run);
    var s := Run(Start(clients, threads), limit, queueSize, run);
    forall w, j | Serves(s, w, j) ensures StateOf(s.table, IdAt(s, w, j)).Some? && IsAt(s, IdAt(s, w, j), Listed(w)) {
      EntryHasRecord(s, w, j);
    }
  }

  /** The listener finds the client of every CL_DISCONNECTED a worker has pushed. */
  lemma DeparturesFindTheirClient(clients: nat, threads: nat, limit: int, queueSize: nat, run: seq<Event>, k: nat)
    requires var s := Run(Start(clients, threads), limit, queueSize, run);
             k < |s.posts| && IsFarewell(s.posts[k]) && 0 <= s.posts[k].number < |s.pool.workers|
    ensures var s := Run(Start(clients, threads), limit, queueSize, run);
            B.Handle(s.table, s.pool, queueSize, NoteOf(s.posts[k])).2 != B.ClientNotFound
  {
    StartIsRight(clients, threads);
    RunKeeps(Start(clients, threads), limit, queueSize, run);
    var s := Run(Start(clients, threads), limit, queueSize, run);
    var p := s.posts[k];
    assert TalkAt(s, p.conn);
    if Ids(s.table.slots) != [] { HandleKeepsStates(s.table, s.pool, queueSize, NoteOf(p)); }
  }

  // ---------------------------------------------------------------- after the farewell

  ghost predicate Gone(s: Server, id: int) { IsAt(s, id, Leaving) || IsAt(s, id, Left) }

  /** CL_DISCONNECTED has been pushed for the connection. */
  predicate SaidFarewell(s: Server, id: int) {
    var out := Of(s.pushed, id);
    out != [] && out[|out| - 1].action == CL_DISCONNECTED
  }

  lemma FarewellMeansGone(s: Server, id: int)
    requires Inv(s)
    ensures SaidFarewell(s, id) <==> Gone(s, id)
  {
    assert TalkAt(s, id);
  }

  function RecordOf(t: Table, id: int): Option<Record> {
    var i := Find(t.slots, id);
    if i < |t.slots| then t.slots[i] else None
  }

  predicate ByWorker(e: Event) { !e.Accept? && !e.HandlePost? }

  /** A worker's step on an entry leaves the records of other connections alone. */
  lemma OthersKeepRecords(s: Server, w: nat, j: nat, r: Record, out: seq<Frame>, id: int)
    requires Inv(s) && Serves(s, w, j) && SlotAt(s, w, j) < |s.table.slots| && r.id == IdAt(s, w, j) && id != r.id
    ensures RecordOf(Served(s, w, j, r, out).table, id) == RecordOf(s.table, id)
    ensures Of(Served(s, w, j, r, out).pushed, id) == Of(s.pushed, id)
  {
    EntryHasRecord(s, w, j);
    var slots := Served(s, w, j, r, out).table.slots;
    SameFind(s.table.slots, slots, id);
    if out != [] { OfAppend(s.pushed, Post(r.id, s.threads[w].number, out[0]), id); }
  }

  ghost predicate StaysGone(s: Server, s': Server, id: int) {
    Gone(s', id) && Of(s'.pushed, id) == Of(s.pushed, id) && RecordOf(s'.table, id) == RecordOf(s.table, id)
  }

  lemma GoneServed(s: Server, w: nat, j: nat, r: Record, out: seq<Frame>, id: int)
    requires Inv(s) && Gone(s, id) && Serves(s, w, j) && SlotAt(s, w, j) < |s.table.slots| && r.id == IdAt(s, w, j)
    ensures StaysGone(s, Served(s, w, j, r, out), id)
  {
    EntryHasRecord(s, w, j);
    OthersKeepRecords(s, w, j, r, out, id);
  }

  lemma GoneInput(s: Server, w: nat, j: nat, f: Frame, id: int)
    requires Inv(s) && Gone(s, id)
    ensures StaysGone(s, InputStep(s, w, j, f), id)
  {
    if Serves(s, w, j) {
      EntryHasRecord(s, w, j);
      var (r, _, out) := ServerInput(RecordAt(s, w, j), f);
      GoneServed(s, w, j, r, out, id);
    }
  }

  lemma GoneMarked(s: Server, w: nat, j: nat, id: int)
    requires Inv(s) && Gone(s, id)
    ensures StaysGone(s, EndOfFileStep(s, w, j), id) && StaysGone(s, OutputStep(s, w, j), id)
  {
    if Serves(s, w, j) {
      EntryHasRecord(s, w, j);
      GoneServed(s, w, j, RecordAt(s, w, j).(state := DISCONNECT_STATE), [], id);
      var r := ServerOutput(RecordAt(s, w, j)).0;
      GoneServed(s, w, j, if r.state == INITIALIZED then r.(queue := []) else r, [], id);
    }
  }

  lemma GoneSweep(s: Server, w: nat, j: nat, leftover: string, id: int)
    requires Inv(s) && Gone(s, id)
    ensures StaysGone(s, SweepStep(s, w, j, leftover), id)
  {
    if Serves(s, w, j) {
      EntryHasRecord(s, w, j);
      OfAppend(s.pushed, Post(IdAt(s, w, j), s.threads[w].number, Farewell(RecordAt(s, w, j)).(content := leftover)), id);
    }
  }

  lemma GoneFetch(s: Server, w: nat, k: nat, id: int)
    requires OrdersRight(s) && Gone(s, id)
    ensures StaysGone(s, FetchStep(s, w, k), id)
  {
    if k < |s.orders| { assert IsAt(s, s.orders[k].id, Queued); }
  }

  lemma GoneHandle(s: Server, queueSize: nat, k: nat, id: int)
    requires PostsRight(s) && Gone(s, id)
    ensures var s' := HandleStep(s, queueSize, k); Gone(s', id) && s'.pushed == s.pushed
  {
  }

  lemma GoneStep(s: Server, limit: int, queueSize: nat, e: Event, id: int)
    requires Inv(s) && Gone(s, id)
    ensures var s' := Step(s, limit, queueSize, e);
            && Gone(s', id) && Of(s'.pushed, id) == Of(s.pushed, id)
            && (ByWorker(e) ==> RecordOf(s'.table, id) == RecordOf(s.table, id))
  {
    match e
    case Input(w, j, f) => GoneInput(s, w, j, f, id);
    case EndOfFile(w, j) => GoneMarked(s, w, j, id);
    case Output(w, j) => GoneMarked(s, w, j, id);
    case Sweep(w, j, c) => GoneSweep(s, w, j, c, id);
    case Fetch(w, k) => GoneFetch(s, w, k, id);
    case HandlePost(k) => GoneHandle(s, queueSize, k, id);
    case Accept(_, _, _) =>
  }

  lemma {:induction false} GoneRun(s: Server, limit: int, queueSize: nat, run: seq<Event>, id: int)
    requires Inv(s) && Gone(s, id)
    ensures var e := Run(s, limit, queueSize, run); Inv(e) && Gone(e, id) && Of(e.pushed, id) == Of(s.pushed, id)
    decreases |run|
  {
    if run != [] {
      StepKeeps(s, limit, queueSize, run[0]);
      GoneStep(s, limit, queueSize, run[0], id);
      GoneRun(Step(s, limit, queueSize, run[0]), limit, queueSize, run[1..], id);
    }
  }

  /** Once CL_DISCONNECTED has been pushed for a connection, then for ever after: nothing more is pushed for it,
      it is on no worker's list and on the way to none, and no step of any worker changes its record. */
  lemma AfterFarewell(clients: nat, threads: nat, limit: int, queueSize: nat, run: seq<Event>, more: seq<Event>, id: int,
                      e: Event)
    requires SaidFarewell(Run(Start(clients, threads), limit, queueSize, run), id)
    ensures var s := Run(Start(clients, threads), limit, queueSize, run);
            var r := Run(s, limit, queueSize, more);
            && Of(r.pushed, id) == Of(s.pushed, id)
            && (forall w, j | Serves(r, w, j) :: IdAt(r, w, j) != id)
            && (forall k | 0 <= k < |r.orders| :: r.orders[k].id != id)
            && (ByWorker(e) ==> RecordOf(Step(r, limit, queueSize, e).table, id) == RecordOf(r.table, id))
  {
    StartIsRight(clients, threads);
    RunKeeps(Start(clients, threads), limit, queueSize, run);
    var s := Run(Start(clients, threads), limit, queueSize, run);
    FarewellMeansGone(s, id);
    GoneRun(s, limit, queueSize, more, id);
    var r := Run(s, limit, queueSize, more);
    GoneStep(r, limit, queueSize, e, id);
    forall w, j | Serves(r, w, j) ensures IdAt(r, w, j) != id { EntryHasRecord(r, w, j); }
  }
}
