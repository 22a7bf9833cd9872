/** The listener's handling of messages from workers, and what every connected client gets to see over a whole
    run of the server. */
module Broadcast {
  import opened Wrappers
  import opened Resources
  import opened ClientTable
  import ChatServer
  import LoadBalancer
  import M = ServerMessage

  /** A message popped from the workers' queue, with the numbers its id and thread fields stand for. */
  datatype Note = Note(fields: M.Fields, id: int, thread: nat)

  /** One broadcast: the client it is not sent to, and the text sent to all others. */
  datatype Entry = Entry(excepted: int, text: string)

  /** How handling ends: normally, or with the exception that ends the listener's loop. */
  datatype Result = Done | ClientNotFound | NoSuchWorker | QueueFull

  /** What handling a note broadcasts, if anything. */
  function EntryOf(m: Note): Option<Entry> {
    var f := m.fields;
    if f.action == ActionName(CL_DISCONNECTED) then
      var told := f.(action := ActionName(UNICAST_REPEATED), msgContent := f.name + " Has just left!", name := SERVER_NAME);
      Some(Entry(m.id, M.Print(told)))
    else if f.action == ActionName(UNICAST_REPEATED) then Some(Entry(m.id, M.Print(f)))
    else if f.action == ActionName(SV_DISCONNECTED) then Some(Entry(-1, M.Print(f)))
    else if f.action == ActionName(INIT_DONE) then Some(Entry(m.id, M.Print(f.(action := ActionName(UNICAST_REPEATED)))))
    else None
  }

  function Send(t: Table, p: LoadBalancer.Pool, queueSize: nat, ids: seq<int>, e: Entry):
    (Table, LoadBalancer.Pool, Result)
  {
    var (slots, ok) := Unicast(t.slots, queueSize, e.excepted, ids, e.text);
    (t.(slots := slots), p, if ok then Done else QueueFull)
  }

  /** A departure: the record goes first, then everyone else is told, then the worker loses a client. */
  function HandleDeparture(t: Table, p: LoadBalancer.Pool, queueSize: nat, ids: seq<int>, m: Note, e: Entry):
    (Table, LoadBalancer.Pool, Result)
    requires m.thread < |p.workers|
  {
    var d := Disconnect(t, m.id);
    if d.None? then (t, p, ClientNotFound)
    else if p.workers[m.thread].None? || p.workers[m.thread].value == 0 then (d.value, p, NoSuchWorker)
    else
      var (t', _, result) := Send(d.value, p, queueSize, ids, e);
      if result != Done then (t', p, result)
      else
        var q := LoadBalancer.Disconnect(p, m.thread);
        if q.None? then (t', p, NoSuchWorker) else (t', q.value, Done)
  }

  /** listener_process_worker_to_listener_q, once a message has been popped and parsed. */
  function Handle(t: Table, p: LoadBalancer.Pool, queueSize: nat, m: Note): (Table, LoadBalancer.Pool, Result)
    requires m.thread < |p.workers|
  {
    var ids := Ids(t.slots);
    if ids == [] || EntryOf(m).None? then (t, p, Done)
    else if m.fields.action == ActionName(CL_DISCONNECTED) then HandleDeparture(t, p, queueSize, ids, m, EntryOf(m).value)
    else Send(t, p, queueSize, ids, EntryOf(m).value)
  }

  method ProcessDeparture(sv: ChatServer.Server, manager: LoadBalancer.ServerThreadManager, queueSize: nat,
                          populatedIDs: seq<int>, m: Note, text: string)
    returns (result: Result)
    requires sv.Valid() && m.thread < manager.workerThreads.Length
    modifies sv`nrOfConnections, sv.clients, sv.clients[..]
    modifies manager`nrOfLaunchedThreads, manager`maxClientsPerThread, manager.workerThreads
    ensures sv.Valid()
    ensures (sv.View(), manager.View(), result)
            == HandleDeparture(old(sv.View()), old(manager.View()), queueSize, populatedIDs, m, Entry(m.id, text))
  {
    var found := sv.DisconnectClient(m.id);
    if !found { return ClientNotFound; }
    if manager.workerThreads[m.thread].None? || manager.workerThreads[m.thread].value == 0 {
      return NoSuchWorker;
    }
    var ok := sv.UnicastRepeated(queueSize, m.id, populatedIDs, text);
    if !ok { return QueueFull; }
    ok := manager.WorkerClientDisconnect(m.thread);
    result := if ok then Done else NoSuchWorker;
  }

  method ListenerProcess(sv: ChatServer.Server, manager: LoadBalancer.ServerThreadManager, queueSize: nat, m: Note)
    returns (result: Result)
    requires sv.Valid() && m.thread < manager.workerThreads.Length
    modifies sv`nrOfConnections, sv.clients, sv.clients[..]
    modifies manager`nrOfLaunchedThreads, manager`maxClientsPerThread, manager.workerThreads
    ensures sv.Valid()
    ensures (sv.View(), manager.View(), result) == Handle(old(sv.View()), old(manager.View()), queueSize, m)
  {
    var populatedIDs := sv.GetConnectedIDs();
    if populatedIDs == [] {
      return Done;
    }
    var f, ok := m.fields, true;
    if f.action == ActionName(CL_DISCONNECTED) {
      var text := f.(action := ActionName(UNICAST_REPEATED), msgContent := f.name + " Has just left!", name := SERVER_NAME);
      result := ProcessDeparture(sv, manager, queueSize, populatedIDs, m, M.Print(text));
      return;
    } else if f.action == ActionName(UNICAST_REPEATED) {
      ok := sv.UnicastRepeated(queueSize, m.id, populatedIDs, M.Print(f));
    } else if f.action == ActionName(SV_DISCONNECTED) {
      ok := sv.UnicastRepeated(queueSize, -1, populatedIDs, M.Print(f));
    } else if f.action == ActionName(INIT_DONE) {
      ok := sv.UnicastRepeated(queueSize, m.id, populatedIDs, M.Print(f.(action := ActionName(UNICAST_REPEATED))));
    }
    result := if ok then Done else QueueFull;
  }

  // ---------------------------------------------------------------- one note, seen by one slot

  /** Repeated unicast to everyone connected at its start: each record still there, except the excepted one,
      gets the text once, provided every queue has room. */
  lemma SendReachesAll(t0: Table, t: Table, p: LoadBalancer.Pool, queueSize: nat, e: Entry)
    requires TableInv(t0) && TableInv(t) && |t0.slots| == |t.slots|
    requires forall i | 0 <= i < |t.slots| :: t.slots[i] == t0.slots[i] || t.slots[i] == None
    ensures var (t', p', result) := Send(t, p, queueSize, Ids(t0.slots), e);
            result == Done ==>
              && TableInv(t') && |t'.slots| == |t.slots| && t'.nextId == t.nextId
              && forall i | 0 <= i < |t.slots| ::
                   t'.slots[i] == if t.slots[i].Some? && t.slots[i].value.id != e.excepted
                                  then WithMessage(t.slots[i], e.text) else t.slots[i]
  {
    var ids := Ids(t0.slots);
    IdsAreExact(t0.slots);
    UnicastIsExact(t.slots, queueSize, e.excepted, ids, e.text);
    var (t', p', result) := Send(t, p, queueSize, ids, e);
    if result == Done {
      forall i | 0 <= i < |t.slots| && t.slots[i].Some? ensures t.slots[i].value.id in ids {
        assert HasId(t0.slots[i], t.slots[i].value.id);
      }
      SameOccupied(t.slots, t'.slots);
    }
  }

  lemma {:induction false} SameOccupied(a: seq<Option<Record>>, b: seq<Option<Record>>)
    requires |a| == |b| && forall i | 0 <= i < |a| :: a[i].Some? == b[i].Some?
    ensures Occupied(a) == Occupied(b)
  {
    if a != [] { SameOccupied(a[1..], b[1..]); }
  }

  /** What becomes of a slot when `e` is broadcast, and the excepted client may be `leaving`. */
  ghost function AfterEntry(slot: Option<Record>, e: Entry, leaving: bool): Option<Record> {
    if slot.None? then None
    else if slot.value.id != e.excepted then WithMessage(slot, e.text)
    else if leaving then None
    else slot
  }

  lemma DepartureEffect(t: Table, p: LoadBalancer.Pool, queueSize: nat, m: Note, e: Entry)
    requires TableInv(t) && m.thread < |p.workers| && e.excepted == m.id
    ensures var (t', p', result) := HandleDeparture(t, p, queueSize, Ids(t.slots), m, e);
            result == Done ==>
              && TableInv(t') && |t'.slots| == |t.slots| && t'.nextId == t.nextId && |p'.workers| == |p.workers|
              && forall i | 0 <= i < |t.slots| :: t'.slots[i] == AfterEntry(t.slots[i], e, true)
  {
    DisconnectKeepsTable(t, m.id);
    if Disconnect(t, m.id).Some? { SendReachesAll(t, Disconnect(t, m.id).value, p, queueSize, e); }
  }

  /** Handling one note without a failure: who is gone, and what everyone left has got. */
  lemma HandleEffect(t: Table, p: LoadBalancer.Pool, queueSize: nat, m: Note)
    requires TableInv(t) && m.thread < |p.workers|
    ensures var (t', p', result) := Handle(t, p, queueSize, m);
            result == Done ==>
              && TableInv(t') && |t'.slots| == |t.slots| && t'.nextId == t.nextId && |p'.workers| == |p.workers|
              && forall i | 0 <= i < |t.slots| ::
                   t'.slots[i] ==
                     if EntryOf(m).None? then t.slots[i]
                     else AfterEntry(t.slots[i], EntryOf(m).value, m.fields.action == ActionName(CL_DISCONNECTED))
  {
    if Ids(t.slots) == [] {
      IdsAreExact(t.slots);
      OccupiedAll(t.slots);
    } else if EntryOf(m).Some? {
      var e := EntryOf(m).value;
      if m.fields.action == ActionName(CL_DISCONNECTED) {
        DepartureEffect(t, p, queueSize, m, e);
      } else {
        SendReachesAll(t, t, p, queueSize, e);
      }
    }
  }

  // ---------------------------------------------------------------- what each action means for each client

  /** The client in a slot has got one more message, which parses to `f`; nothing else about it has changed. */
  ghost predicate Told(before: Option<Record>, after: Option<Record>, f: M.Fields) {
    && before.Some? && after.Some?
    && var q, q' := before.value.queue, after.value.queue;
       && after.value == before.value.(queue := q')
       && |q'| == |q| + 1 && q'[..|q|] == q
       && M.Parse(q'[|q|]) == Some(f)
  }

  lemma PrintedIsTold(slot: Option<Record>, f: M.Fields)
    requires slot.Some? && M.Clean(f)
    ensures Told(slot, WithMessage(slot, M.Print(f)), f)
  {
    M.PrintThenParse(f);
  }

  ghost predicate Has(slot: Option<Record>, id: int) { slot.Some? && slot.value.id == id }

  ghost predicate IsOther(slot: Option<Record>, id: int) { slot.Some? && slot.value.id != id }

  /** Everyone connected but client `id` has been told `f`. */
  ghost predicate OthersTold(slots: seq<Option<Record>>, slots': seq<Option<Record>>, id: int, f: M.Fields) {
    && |slots'| == |slots|
    && forall i | 0 <= i < |slots| :: if IsOther(slots[i], id) then Told(slots[i], slots'[i], f) else slots'[i] == slots[i]
  }

  ghost predicate OthersHaveRoom(slots: seq<Option<Record>>, queueSize: nat, id: int) {
    forall i | 0 <= i < |slots| && IsOther(slots[i], id) :: |slots[i].value.queue| < queueSize
  }

  lemma SendTells(t: Table, p: LoadBalancer.Pool, queueSize: nat, id: int, f: M.Fields)
    requires TableInv(t) && M.Clean(f)
    ensures var (t', p', result) := Send(t, p, queueSize, Ids(t.slots), Entry(id, M.Print(f)));
            && p' == p && (result == Done <==> OthersHaveRoom(t.slots, queueSize, id))
            && (result == Done ==> OthersTold(t.slots, t'.slots, id, f))
            && (result == Done || result == QueueFull)
  {
    var e := Entry(id, M.Print(f));
    var ids := Ids(t.slots);
    SendReachesAll(t, t, p, queueSize, e);
    IdsAreExact(t.slots);
    UnicastIsExact(t.slots, queueSize, id, ids, e.text);
    forall i | 0 <= i < |t.slots| ensures Targeted(t.slots[i], id, ids) <==> IsOther(t.slots[i], id) {
      if t.slots[i].Some? { assert HasId(t.slots[i], t.slots[i].value.id); }
    }
    var (t', _, result) := Send(t, p, queueSize, ids, e);
    if result == Done {
      forall i | 0 <= i < |t.slots| && IsOther(t.slots[i], id) ensures Told(t.slots[i], t'.slots[i], f) {
        PrintedIsTold(t.slots[i], f);
      }
    }
  }

  lemma NobodyConnected(slots: seq<Option<Record>>)
    requires IdsDiffer(slots) && Ids(slots) == []
    ensures forall i | 0 <= i < |slots| :: slots[i].None?
  {
    IdsAreExact(slots);
    OccupiedAll(slots);
  }

  /** A message that makes nobody leave. */
  lemma HandleTells(t: Table, p: LoadBalancer.Pool, queueSize: nat, m: Note, id: int, f: M.Fields)
    requires TableInv(t) && m.thread < |p.workers| && M.Clean(f)
    requires m.fields.action != ActionName(CL_DISCONNECTED) && EntryOf(m) == Some(Entry(id, M.Print(f)))
    ensures var (t', p', result) := Handle(t, p, queueSize, m);
            && p' == p && (result == Done <==> OthersHaveRoom(t.slots, queueSize, id))
            && (result == Done ==> OthersTold(t.slots, t'.slots, id, f))
  {
    if Ids(t.slots) == [] { NobodyConnected(t.slots); } else { SendTells(t, p, queueSize, id, f); }
  }

  /** A chat line, as the worker pushed it, goes to everyone but its sender; it fails exactly when one of their queues
      is full. */
  lemma ChatReachesOthers(t: Table, p: LoadBalancer.Pool, queueSize: nat, m: Note)
    requires TableInv(t) && m.thread < |p.workers| && M.Clean(m.fields) && m.fields.action == ActionName(UNICAST_REPEATED)
    ensures var (t', p', result) := Handle(t, p, queueSize, m);
            && p' == p && (result == Done <==> OthersHaveRoom(t.slots, queueSize, m.id))
            && (result == Done ==> OthersTold(t.slots, t'.slots, m.id, m.fields))
  {
    HandleTells(t, p, queueSize, m, m.id, m.fields);
  }

  /** Fields with other texts for action, name and content, none with a separator. */
  lemma CleanFields(f: M.Fields, g: M.Fields)
    requires M.Clean(f) && g == f.(action := g.action, name := g.name, msgContent := g.msgContent)
    requires M.SEPARATOR !in g.action && M.SEPARATOR !in g.name && M.SEPARATOR !in g.msgContent
    ensures M.Clean(g)
  {
    M.NoSeparator(g.action);
    M.NoSeparator(g.name);
    M.NoSeparator(g.msgContent);
    assert forall i | 0 <= i < M.NR_OF_SEPARATIONS && i != 1 && i != 4 && i != 7 :: M.AsList(g)[i] == M.AsList(f)[i];
  }

  lemma CleanTexts(f: M.Fields)
    requires M.Clean(f)
    ensures M.SEPARATOR !in f.name && M.SEPARATOR !in f.msgContent
  {
    assert f.name == M.AsList(f)[4] && f.msgContent == M.AsList(f)[7];
    M.NoSeparator(f.name);
    M.NoSeparator(f.msgContent);
  }

  /** The same fields as a chat line. */
  ghost function AsChat(f: M.Fields): (g: M.Fields)
    requires M.Clean(f)
    ensures M.Clean(g)
  {
    var g := f.(action := "UNICAST_REPEATED");
    CleanTexts(f);
    CleanFields(f, g);
    g
  }

  /** A newcomer's INIT_DONE goes to everyone else as a chat line with the same fields. */
  lemma NewcomerIsAnnounced(t: Table, p: LoadBalancer.Pool, queueSize: nat, m: Note)
    requires TableInv(t) && m.thread < |p.workers| && M.Clean(m.fields) && m.fields.action == ActionName(INIT_DONE)
    ensures var (t', p', result) := Handle(t, p, queueSize, m);
            && p' == p && (result == Done <==> OthersHaveRoom(t.slots, queueSize, m.id))
            && (result == Done ==> OthersTold(t.slots, t'.slots, m.id, AsChat(m.fields)))
  {
    HandleTells(t, p, queueSize, m, m.id, AsChat(m.fields));
  }

  /** The server's shutdown message goes to every client as it is; ids are not negative. */
  lemma ShutdownReachesEverybody(t: Table, p: LoadBalancer.Pool, queueSize: nat, m: Note)
    requires TableInv(t) && m.thread < |p.workers| && M.Clean(m.fields) && m.fields.action == ActionName(SV_DISCONNECTED)
    ensures var (t', p', result) := Handle(t, p, queueSize, m);
            && p' == p
            && (result == Done <==>
                  forall i | 0 <= i < |t.slots| && t.slots[i].Some? :: |t.slots[i].value.queue| < queueSize)
            && (result == Done ==>
                  && |t'.slots| == |t.slots|
                  && forall i | 0 <= i < |t.slots| ::
                       if t.slots[i].Some? then Told(t.slots[i], t'.slots[i], m.fields) else t'.slots[i].None?)
  {
    HandleTells(t, p, queueSize, m, -1, m.fields);
    assert forall i | 0 <= i < |t.slots| :: IsOther(t.slots[i], -1) <==> t.slots[i].Some?;
  }

  /** What those who stay are told about a departure. */
  ghost function Obituary(f: M.Fields): (g: M.Fields)
    requires M.Clean(f)
    ensures M.Clean(g)
  {
    CleanTexts(f);
    var g := f.(action := "UNICAST_REPEATED", name := "SERVER", msgContent := f.name + " Has just left!");
    CleanFields(f, g);
    g
  }

  /** The leaver's slot is free and everyone left has been told by SERVER, with the leaver's name. */
  ghost predicate RestTold(slots: seq<Option<Record>>, slots': seq<Option<Record>>, id: int, f: M.Fields) {
    && |slots'| == |slots|
    && forall i | 0 <= i < |slots| :: if IsOther(slots[i], id) then Told(slots[i], slots'[i], f) else slots'[i].None?
  }

  /** How a departure ends. */
  ghost predicate DepartureExact(t: Table, p: LoadBalancer.Pool, queueSize: nat, m: Note, f: M.Fields,
                                 t': Table, p': LoadBalancer.Pool, result: Result)
    requires m.thread < |p.workers|
  {
    && (result == Done <==>
          && (exists i :: 0 <= i < |t.slots| && Has(t.slots[i], m.id))
          && LoadBalancer.Clients(p.workers[m.thread]) > 0
          && OthersHaveRoom(t.slots, queueSize, m.id))
    && (result == ClientNotFound <==> !exists i :: 0 <= i < |t.slots| && Has(t.slots[i], m.id))
    && (result == ClientNotFound ==> t' == t)
    && (result != Done ==> p' == p)
    && (result == Done ==>
          && RestTold(t.slots, t'.slots, m.id, f)
          && |p'.workers| == |p.workers|
          && LoadBalancer.Clients(p'.workers[m.thread]) == LoadBalancer.Clients(p.workers[m.thread]) - 1
          && forall w | 0 <= w < |p.workers| && w != m.thread :: p'.workers[w] == p.workers[w])
  }

  /** A departure frees the leaver's slot, tells everyone left, and takes one client off the leaver's worker and no
      other. It fails exactly when the client or the worker is unknown, or a queue is full, and then the workers'
      counts stay; with nobody connected nothing happens. */
  lemma DepartureReachesTheRest(t: Table, p: LoadBalancer.Pool, queueSize: nat, m: Note)
    requires TableInv(t) && m.thread < |p.workers| && M.Clean(m.fields) && m.fields.action == ActionName(CL_DISCONNECTED)
    ensures t.connections == 0 ==> Handle(t, p, queueSize, m) == (t, p, Done)
    ensures var (t', p', result) := Handle(t, p, queueSize, m);
            t.connections > 0 ==> DepartureExact(t, p, queueSize, m, Obituary(m.fields), t', p', result)
  {
    assert Ids(t.slots) == [] <==> t.connections == 0 by { IdsAreExact(t.slots); }
    HandleIsDeparture(t, p, queueSize, m);
    if t.connections > 0 { DepartureTells(t, p, queueSize, m, Obituary(m.fields)); }
  }

  lemma HandleIsDeparture(t: Table, p: LoadBalancer.Pool, queueSize: nat, m: Note)
    requires m.thread < |p.workers| && M.Clean(m.fields) && m.fields.action == ActionName(CL_DISCONNECTED)
    ensures Handle(t, p, queueSize, m) ==
              if Ids(t.slots) == [] then (t, p, Done)
              else HandleDeparture(t, p, queueSize, Ids(t.slots), m, Entry(m.id, M.Print(Obituary(m.fields))))
  {
  }

  lemma DepartureTells(t: Table, p: LoadBalancer.Pool, queueSize: nat, m: Note, f: M.Fields)
    requires TableInv(t) && m.thread < |p.workers| && M.Clean(f)
    ensures var (t', p', result) := HandleDeparture(t, p, queueSize, Ids(t.slots), m, Entry(m.id, M.Print(f)));
            DepartureExact(t, p, queueSize, m, f, t', p', result)
  {
    DisconnectKeepsTable(t, m.id);
    LoadBalancer.LeaveIsExact(p, m.thread);
    assert forall i | 0 <= i < |t.slots| :: Has(t.slots[i], m.id) == HasId(t.slots[i], m.id);
    if Disconnect(t, m.id).Some? { SendAfterDeparture(t, p, queueSize, m.id, f); }
  }

  lemma SendAfterDeparture(t: Table, p: LoadBalancer.Pool, queueSize: nat, id: int, f: M.Fields)
    requires TableInv(t) && M.Clean(f) && Disconnect(t, id).Some?
    ensures var d := Disconnect(t, id).value;
            var (t', p', result) := Send(d, p, queueSize, Ids(t.slots), Entry(id, M.Print(f)));
            && (result == Done <==> OthersHaveRoom(t.slots, queueSize, id))
            && (result == Done ==> RestTold(t.slots, t'.slots, id, f))
  {
    DisconnectKeepsTable(t, id);
    var d, e, ids := Disconnect(t, id).value, Entry(id, M.Print(f)), Ids(t.slots);
    SendReachesAll(t, d, p, queueSize, e);
    IdsAreExact(t.slots);
    UnicastIsExact(d.slots, queueSize, id, ids, e.text);
    forall i | 0 <= i < |t.slots|
      ensures Targeted(d.slots[i], id, ids) <==> IsOther(t.slots[i], id)
      ensures IsOther(t.slots[i], id) ==> d.slots[i] == t.slots[i]
    {
      if t.slots[i].Some? { assert HasId(t.slots[i], t.slots[i].value.id); }
    }
    var (t', _, result) := Send(d, p, queueSize, ids, e);
    if result == Done {
      forall i | 0 <= i < |t.slots| && IsOther(t.slots[i], id) ensures Told(t.slots[i], t'.slots[i], f) {
        PrintedIsTold(t.slots[i], f);
      }
    }
  }

  /** A message with any other action changes nothing. */
  lemma OtherNotesDoNothing(t: Table, p: LoadBalancer.Pool, queueSize: nat, m: Note)
    requires m.thread < |p.workers|
    requires m.fields.action !in ["UNICAST_REPEATED", "INIT_DONE", "SV_DISCONNECTED", "CL_DISCONNECTED"]
    ensures Handle(t, p, queueSize, m) == (t, p, Done)
  {
  }

  // ---------------------------------------------------------------- whole runs

  /** The server with its history: everything broadcast so far, how much had been broadcast when each client
      was accepted, and what has been sent to each client. */
  datatype World = World(t: Table, p: LoadBalancer.Pool, log: seq<Entry>, joined: map<int, nat>, drained: map<int, seq<string>>)

  /** Accepting a connection; handling a note; a worker sending one queued message to its client; and a worker
      changing a record's name or state. */
  datatype Op =
    | Accepting(fd: nat, color: int, handoff: bool)
    | Listening(note: Note)
    | Draining(slot: nat)
    | Updating(slot: nat, name: string, state: int)

  ghost predicate Possible(w: World, queueSize: nat, op: Op) {
    match op
    case Accepting(_, _, _) => true
    case Listening(m) => m.thread < |w.p.workers| && Handle(w.t, w.p, queueSize, m).2 == Done
    case Draining(i) =>
      i < |w.t.slots| && w.t.slots[i].Some? && w.t.slots[i].value.state == INITIALIZED
      && w.t.slots[i].value.queue != [] && w.t.slots[i].value.id in w.drained
    case Updating(i, _, _) => i < |w.t.slots| && w.t.slots[i].Some?
  }

  ghost function Do(w: World, limit: int, queueSize: nat, op: Op): World
    requires Possible(w, queueSize, op)
  {
    match op
    case Accepting(fd, color, handoff) =>
      var (t', (_, id)) := Accept(w.t, fd, color);
      var p' := LoadBalancer.Connect(w.p, limit, handoff).0;
      if id == -1 then w.(t := t', p := p')
      else w.(t := t', p := p', joined := w.joined[id := |w.log|], drained := w.drained[id := []])
    case Listening(m) =>
      var (t', p', _) := Handle(w.t, w.p, queueSize, m);
      w.(t := t', p := p',
         log := if Ids(w.t.slots) != [] && EntryOf(m).Some? then w.log + [EntryOf(m).value] else w.log)
    case Draining(i) =>
      var r := w.t.slots[i].value;
      w.(t := w.t.(slots := w.t.slots[i := Some(r.(queue := r.queue[1..]))]),
         drained := w.drained[r.id := w.drained[r.id] + [r.queue[0]]])
    case Updating(i, name, state) =>
      var r := w.t.slots[i].value;
      w.(t := w.t.(slots := w.t.slots[i := Some(r.(name := name, state := state))]))
  }

  /** The texts of the entries not excepting `id`, in order. */
  ghost function Addressed(log: seq<Entry>, id: int): seq<string> {
    if log == [] then []
    else
      var e := log[|log| - 1];
      Addressed(log[..|log| - 1], id) + if e.excepted == id then [] else [e.text]
  }

  /** What the client in a slot has been sent, and then what is waiting for it. */
  ghost function Received(w: World, i: nat): seq<string>
    requires i < |w.t.slots| && w.t.slots[i].Some? && w.t.slots[i].value.id in w.drained
  {
    w.drained[w.t.slots[i].value.id] + w.t.slots[i].value.queue
  }

  ghost predicate SlotSeesLog(w: World, i: nat)
    requires i < |w.t.slots|
  {
    w.t.slots[i].Some? ==>
      var id := w.t.slots[i].value.id;
      && id in w.joined && id in w.drained && w.joined[id] <= |w.log|
      && Received(w, i) == Addressed(w.log[w.joined[id]..], id)
  }

  ghost predicate BroadcastInv(w: World) {
    && TableInv(w.t)
    && forall i: nat | i < |w.t.slots| :: SlotSeesLog(w, i)
  }

  lemma AddressedAppend(log: seq<Entry>, j: nat, e: Entry, id: int)
    requires j <= |log|
    ensures Addressed((log + [e])[j..], id) == Addressed(log[j..], id) + if e.excepted == id then [] else [e.text]
  {
    var tail := (log + [e])[j..];
    assert tail[..|tail| - 1] == log[j..];
  }

  lemma AcceptingKeeps(w: World, limit: int, queueSize: nat, fd: nat, color: int, handoff: bool)
    requires BroadcastInv(w)
    ensures BroadcastInv(Do(w, limit, queueSize, Accepting(fd, color, handoff)))
  {
    AcceptKeepsTable(w.t, fd, color);
    var w' := Do(w, limit, queueSize, Accepting(fd, color, handoff));
    forall i: nat | i < |w'.t.slots| ensures SlotSeesLog(w', i) {
      assert SlotSeesLog(w, i);
    }
  }

  lemma ListeningKeeps(w: World, limit: int, queueSize: nat, m: Note)
    requires BroadcastInv(w) && Possible(w, queueSize, Listening(m))
    ensures BroadcastInv(Do(w, limit, queueSize, Listening(m)))
  {
    HandleEffect(w.t, w.p, queueSize, m);
    IdsAreExact(w.t.slots);
    OccupiedAll(w.t.slots);
    var w' := Do(w, limit, queueSize, Listening(m));
    forall i: nat | i < |w'.t.slots| ensures SlotSeesLog(w', i) {
      assert SlotSeesLog(w, i);
      if w'.t.slots[i].Some? && EntryOf(m).Some? {
        var id := w.t.slots[i].value.id;
        AddressedAppend(w.log, w.joined[id], EntryOf(m).value, id);
      }
    }
  }

  lemma DrainingKeeps(w: World, limit: int, queueSize: nat, k: nat)
    requires BroadcastInv(w) && Possible(w, queueSize, Draining(k))
    ensures BroadcastInv(Do(w, limit, queueSize, Draining(k)))
  {
    var w' := Do(w, limit, queueSize, Draining(k));
    SameOccupied(w.t.slots, w'.t.slots);
    forall i: nat | i < |w'.t.slots| ensures SlotSeesLog(w', i) {
      assert SlotSeesLog(w, i);
      var q := w.t.slots[k].value.queue;
      assert q == [q[0]] + q[1..];
      if i == k { assert Received(w', i) == Received(w, i); }
    }
  }

  lemma UpdatingKeeps(w: World, limit: int, queueSize: nat, k: nat, name: string, state: int)
    requires BroadcastInv(w) && Possible(w, queueSize, Updating(k, name, state))
    ensures BroadcastInv(Do(w, limit, queueSize, Updating(k, name, state)))
  {
    var w' := Do(w, limit, queueSize, Updating(k, name, state));
    SameOccupied(w.t.slots, w'.t.slots);
    forall i: nat | i < |w'.t.slots| ensures SlotSeesLog(w', i) {
      assert SlotSeesLog(w, i);
    }
  }

  /** A run in which no handling fails: no queue is full and no message names a client or worker unknown. */
  ghost predicate PossibleRun(w: World, limit: int, queueSize: nat, ops: seq<Op>)
    decreases |ops|
  {
    ops == [] || (Possible(w, queueSize, ops[0]) && PossibleRun(Do(w, limit, queueSize, ops[0]), limit, queueSize, ops[1..]))
  }

  ghost function After(w: World, limit: int, queueSize: nat, ops: seq<Op>): World
    requires PossibleRun(w, limit, queueSize, ops)
    decreases |ops|
  {
    if ops == [] then w else After(Do(w, limit, queueSize, ops[0]), limit, queueSize, ops[1..])
  }

  lemma {:induction false} BroadcastRun(w: World, limit: int, queueSize: nat, ops: seq<Op>)
    requires BroadcastInv(w) && PossibleRun(w, limit, queueSize, ops)
    ensures BroadcastInv(After(w, limit, queueSize, ops))
    decreases |ops|
  {
    if ops != [] {
      match ops[0] {
        case Accepting(fd, color, handoff) => AcceptingKeeps(w, limit, queueSize, fd, color, handoff);
        case Listening(m) => ListeningKeeps(w, limit, queueSize, m);
        case Draining(i) => DrainingKeeps(w, limit, queueSize, i);
        case Updating(i, name, state) => UpdatingKeeps(w, limit, queueSize, i, name, state);
      }
      BroadcastRun(Do(w, limit, queueSize, ops[0]), limit, queueSize, ops[1..]);
    }
  }

  ghost function Start(clients: nat, threads: nat): World {
    World(Table(seq(clients, _ => None), 0, 0), LoadBalancer.Fresh(threads), [], map[], map[])
  }

  // ---------------------------------------------------------------- one order for everyone

  /** The positions in the log, from `from` on, of the entries a client gets. */
  ghost function Positions(log: seq<Entry>, from: nat, id: int): (ps: seq<nat>)
    requires from <= |log|
    ensures forall k | 0 <= k < |ps| :: from <= ps[k] < |log| && log[ps[k]].excepted != id
    ensures forall j, k | 0 <= j < k < |ps| :: ps[j] < ps[k]
    ensures forall n: nat | from <= n < |log| && log[n].excepted != id :: n in ps
    decreases |log|
  {
    if from == |log| then []
    else
      var init := Positions(log[..|log| - 1], from, id);
      if log[|log| - 1].excepted == id then init else init + [|log| - 1]
  }

  ghost function TextsAt(log: seq<Entry>, ps: seq<nat>): (s: seq<string>)
    requires forall k | 0 <= k < |ps| :: ps[k] < |log|
    ensures |s| == |ps| && forall k | 0 <= k < |ps| :: s[k] == log[ps[k]].text
  {
    seq(|ps|, k requires 0 <= k < |ps| => log[ps[k]].text)
  }

  lemma TextsOfPrefix(log: seq<Entry>, e: Entry, ps: seq<nat>)
    requires forall k | 0 <= k < |ps| :: ps[k] < |log|
    ensures TextsAt(log + [e], ps) == TextsAt(log, ps)
    ensures TextsAt(log + [e], ps + [|log|]) == TextsAt(log, ps) + [e.text]
  {
  }

  lemma {:induction false} AddressedByPosition(log: seq<Entry>, from: nat, id: int)
    requires from <= |log|
    ensures Addressed(log[from..], id) == TextsAt(log, Positions(log, from, id))
    decreases |log|
  {
    if from == |log| {
      assert log[from..] == [] && Positions(log, from, id) == [];
    } else {
      var init, e := log[..|log| - 1], log[|log| - 1];
      assert init + [e] == log;
      AddressedByPosition(init, from, id);
      AddressedAppend(init, from, e, id);
      TextsOfPrefix(init, e, Positions(init, from, id));
    }
  }

  /** After any run without failures, every connected client has received -- sent to it or still waiting --
      exactly the broadcasts made since it was accepted that do not except it: each once, and in the order of
      the log. As the log is one for all, any two clients see their common messages in the same order. */
  lemma EveryClientSeesTheLog(clients: nat, threads: nat, limit: int, queueSize: nat, ops: seq<Op>, i: nat)
    requires PossibleRun(Start(clients, threads), limit, queueSize, ops)
    requires var w := After(Start(clients, threads), limit, queueSize, ops);
             i < |w.t.slots| && w.t.slots[i].Some?
    ensures var w := After(Start(clients, threads), limit, queueSize, ops);
            var id := w.t.slots[i].value.id;
            && id in w.joined && id in w.drained && w.joined[id] <= |w.log|
            && Received(w, i) == TextsAt(w.log, Positions(w.log, w.joined[id], id))
            && w.t.connections == Occupied(w.t.slots)
  {
    var w0 := Start(clients, threads);
    OccupiedAll(w0.t.slots);
    BroadcastRun(w0, limit, queueSize, ops);
    var w := After(w0, limit, queueSize, ops);
    assert SlotSeesLog(w, i);
    AddressedByPosition(w.log, w.joined[w.t.slots[i].value.id], w.t.slots[i].value.id);
  }
}
