/** Word for word, in the whole server: what the workers push for each connection, and what the listener makes every
    other client hear of it. */
module Reports {
  import opened Wrappers
  import opened Resources
  import opened ClientTable
  import L = LoadBalancer
  import B = Broadcast
  import M = ServerMessage
  import H = Handshake
  import D = Dialogue
  import opened WorkerLoop
  import opened Accounts

  // ---------------------------------------------------------------- numbers in messages

  /** The number a string of decimal digits stands for, and one with a sign. */
  function Digits(s: string): int {
    if s == "" then 0 else 10 * Digits(s[..|s| - 1]) + (s[|s| - 1] as int - '0' as int)
  }

  function Number(s: string): int { if s != "" && s[0] == '-' then -Digits(s[1..]) else Digits(s) }

  predicate IsDigit(c: char) { '0' <= c <= '9' }

  lemma {:induction false} DigitsOfNumeral(n: nat)
    ensures var s := Numeral(n); s != "" && (forall k | 0 <= k < |s| :: IsDigit(s[k])) && Digits(s) == n
    decreases n
  {
    if n < 10 {
      assert Numeral(n)[..0] == "";
    } else {
      DigitsOfNumeral(n / 10);
      DigitsOfNumeral(n % 10);
      var s := Numeral(n);
      assert s[..|s| - 1] == Numeral(n / 10);
      assert Numeral(n % 10)[..0] == "";
    }
  }

  /** Reading a printed number gives the number back, and a numeral has no separator. */
  lemma NumeralIsExact(n: int)
    ensures Number(Numeral(n)) == n && M.SEPARATOR !in Numeral(n)
  {
    if n >= 0 {
      DigitsOfNumeral(n);
      assert IsDigit(Numeral(n)[0]);
    } else {
      DigitsOfNumeral(-n);
      assert Numeral(n)[1..] == Numeral(-n);
    }
    forall k | 0 <= k < |Numeral(n)| ensures Numeral(n)[k] != M.SEPARATOR {
      if n < 0 && k > 0 { assert Numeral(n)[k] == Numeral(-n)[k - 1]; }
    }
  }

  // ---------------------------------------------------------------- what the other clients are told

  predicate Plain(f: H.Frame) { M.SEPARATOR !in f.name && M.SEPARATOR !in f.content }

  lemma NameIsPlain(a: Action)
    ensures M.SEPARATOR !in ActionName(a)
  {
  }

  lemma FieldIsPlain(n: Option<int>)
    ensures M.SEPARATOR !in Field(n)
  {
    if n.Some? { NumeralIsExact(n.value); }
  }

  lemma NoteIsClean(p: Post)
    requires p.number >= 0 && Plain(p.frame)
    ensures M.Clean(NoteOf(p).fields)
  {
    var f := NoteOf(p).fields;
    NameIsPlain(p.frame.action);
    FieldIsPlain(p.frame.id);
    FieldIsPlain(p.frame.color);
    NumeralIsExact(p.number);
    forall i | 0 <= i < M.NR_OF_SEPARATIONS ensures M.Separators(M.AsList(f)[i]) == 0 { M.NoSeparator(M.AsList(f)[i]); }
  }

  /** The listener pops this post next, can read its numbers, and its texts have no separator. */
  predicate Readable(s: Server, k: nat) {
    && s.listening && k < |s.posts|
    && s.posts[k].frame.id.Some? && 0 <= s.posts[k].number < |s.pool.workers| && Plain(s.posts[k].frame)
  }

  /** A frame a worker pushed, as everyone else hears it. */
  function AsHeard(number: string, f: H.Frame, name: string, content: string): M.Fields
    requires f.id.Some?
  {
    M.Fields(number, "UNICAST_REPEATED", "", Numeral(f.id.value), name, Field(f.color), "", content)
  }

  /** A chat frame reaches every client but the one whose id it carries, with its id, name, colour and content; and so
      does INIT_DONE, as a chat line. The listener goes on exactly when their queues have room. */
  lemma ChatIsHeard(s: Server, queueSize: nat, k: nat)
    requires TableInv(s.table) && Readable(s, k)
    requires s.posts[k].frame.action == UNICAST_REPEATED || s.posts[k].frame.action == INIT_DONE
    ensures var f, s' := s.posts[k].frame, HandleStep(s, queueSize, k);
            && s'.pool == s.pool
            && (s'.listening <==> B.OthersHaveRoom(s.table.slots, queueSize, f.id.value))
            && (s'.listening ==>
                  B.OthersTold(s.table.slots, s'.table.slots, f.id.value, AsHeard("", f, f.name, f.content)))
  {
    var p := s.posts[k];
    NoteIsClean(p);
    if Ids(s.table.slots) == [] {
      B.NobodyConnected(s.table.slots);
    } else if p.frame.action == UNICAST_REPEATED {
      B.ChatReachesOthers(s.table, s.pool, queueSize, NoteOf(p));
    } else {
      B.NewcomerIsAnnounced(s.table, s.pool, queueSize, NoteOf(p));
    }
  }

  /** When the listener pops a farewell, the client's slot is freed, everyone left hears of it from SERVER with the
      client's name, and the worker the client was counted on has one client less. The listener goes on exactly when
      their queues have room and that worker has a client in the books. */
  lemma DepartureIsHeard(s: Server, queueSize: nat, k: nat)
    requires Inv(s) && EntriesRight(s) && Readable(s, k) && IsFarewell(s.posts[k])
    ensures var p, s' := s.posts[k], HandleStep(s, queueSize, k);
            && p.frame.id == Some(p.conn) && Numbered(s, p.conn, p.number)
            && (s'.listening <==>
                  L.Clients(s.pool.workers[p.number]) > 0 && B.OthersHaveRoom(s.table.slots, queueSize, p.conn))
            && (s'.listening ==>
                  && B.RestTold(s.table.slots, s'.table.slots, p.conn,
                                AsHeard(Numeral(p.number), p.frame, "SERVER", p.frame.name + " Has just left!"))
                  && |s'.pool.workers| == |s.pool.workers|
                  && L.Clients(s'.pool.workers[p.number]) == L.Clients(s.pool.workers[p.number]) - 1
                  && forall w | 0 <= w < |s.pool.workers| && w != p.number :: s'.pool.workers[w] == s.pool.workers[w])
  {
    var p := s.posts[k];
    NoteIsClean(p);
    assert TalkAt(s, p.conn) && IsAt(s, p.conn, Leaving);
    var i := Find(s.table.slots, p.conn);
    assert B.Has(s.table.slots[i], p.conn);
    IdsAreExact(s.table.slots);
    assert HasId(s.table.slots[i], p.conn);
    OccupiedAll(s.table.slots);
    B.DepartureReachesTheRest(s.table, s.pool, queueSize, NoteOf(p));
  }

  // ---------------------------------------------------------------- what the workers push

  /** What an event pushes for a connection. */
  function Pushes(s: Server, e: Event, id: int): seq<H.Frame> {
    match e
    case Input(w, j, f) =>
      if Serves(s, w, j) && SlotAt(s, w, j) < |s.table.slots| && IdAt(s, w, j) == id
      then H.ServerInput(RecordAt(s, w, j), f).2
      else []
    case Sweep(w, j, c) =>
      if Serves(s, w, j) && SlotAt(s, w, j) < |s.table.slots| && IdAt(s, w, j) == id
         && RecordAt(s, w, j).state == DISCONNECT_STATE
      then [H.Farewell(RecordAt(s, w, j)).(content := c)]
      else []
    case _ => []
  }

  lemma InputPushes(s: Server, w: nat, j: nat, f: H.Frame, id: int)
    ensures Of(InputStep(s, w, j, f).pushed, id) == Of(s.pushed, id) + Pushes(s, Input(w, j, f), id)
  {
    if Serves(s, w, j) && SlotAt(s, w, j) < |s.table.slots| {
      var out := H.ServerInput(RecordAt(s, w, j), f).2;
      InputKeepsFd(RecordAt(s, w, j), f);
      OfPushed(s.pushed, Post(IdAt(s, w, j), s.threads[w].number, if out == [] then H.BLANK else out[0]), out, id);
    }
    assert Of(s.pushed, id) + [] == Of(s.pushed, id);
  }

  lemma SweepPushes(s: Server, w: nat, j: nat, leftover: string, id: int)
    ensures Of(SweepStep(s, w, j, leftover).pushed, id) == Of(s.pushed, id) + Pushes(s, Sweep(w, j, leftover), id)
  {
    var s' := SweepStep(s, w, j, leftover);
    if s'.pushed != s.pushed { OfAppend(s.pushed, s'.pushed[|s.pushed|], id); }
    assert Of(s.pushed, id) + [] == Of(s.pushed, id);
  }

  lemma NothingPushed(s: Server, limit: int, queueSize: nat, e: Event)
    requires !e.Input? && !e.Sweep?
    ensures Step(s, limit, queueSize, e).pushed == s.pushed
  {
  }

  lemma StepPushes(s: Server, limit: int, queueSize: nat, e: Event, id: int)
    ensures Of(Step(s, limit, queueSize, e).pushed, id) == Of(s.pushed, id) + Pushes(s, e, id)
  {
    match e
    case Input(w, j, f) => InputPushes(s, w, j, f, id);
    case Sweep(w, j, c) => SweepPushes(s, w, j, c, id);
    case _ =>
      NothingPushed(s, limit, queueSize, e);
      assert Of(s.pushed, id) + [] == Of(s.pushed, id);
  }

  /** A chat frame read from a connection whose record is in its last state. */
  function ChatRead(s: Server, e: Event, id: int): seq<H.Frame> {
    if e.Input? && Serves(s, e.thread, e.entry) && SlotAt(s, e.thread, e.entry) < |s.table.slots|
       && IdAt(s, e.thread, e.entry) == id && RecordAt(s, e.thread, e.entry).state == INITIALIZED
       && e.frame.action == UNICAST_REPEATED
    then [e.frame]
    else []
  }

  function AllChatRead(s: Server, limit: int, queueSize: nat, run: seq<Event>, id: int): seq<H.Frame>
    decreases |run|
  {
    if run == [] then []
    else ChatRead(s, run[0], id) + AllChatRead(Step(s, limit, queueSize, run[0]), limit, queueSize, run[1..], id)
  }

  lemma PushesChat(s: Server, e: Event, id: int)
    ensures D.ChatOf(Pushes(s, e, id)) == ChatRead(s, e, id)
  {
    if Pushes(s, e, id) != [] { D.ChatOfOne(Pushes(s, e, id)[0]); }
  }

  lemma {:induction false} ChatInRun(s: Server, limit: int, queueSize: nat, run: seq<Event>, id: int)
    ensures D.ChatOf(Of(Run(s, limit, queueSize, run).pushed, id))
         == D.ChatOf(Of(s.pushed, id)) + AllChatRead(s, limit, queueSize, run, id)
    decreases |run|
  {
    if run != [] {
      var next := Step(s, limit, queueSize, run[0]);
      StepPushes(s, limit, queueSize, run[0], id);
      PushesChat(s, run[0], id);
      D.ChatAppend(Of(s.pushed, id), Pushes(s, run[0], id));
      ChatInRun(next, limit, queueSize, run[1..], id);
      D.Associative(D.ChatOf(Of(s.pushed, id)), ChatRead(s, run[0], id), AllChatRead(next, limit, queueSize, run[1..], id));
    }
  }

  /** An announcement or a farewell is about the record `r`. */
  predicate WordRight(f: H.Frame, r: Record) {
    && (f.action == INIT_DONE ==>
          f == H.Frame(INIT_DONE, Some(r.id), "SERVER", Some(r.colorId), r.name + " Has Just Connected!"))
    && (f.action == CL_DISCONNECTED ==>
          f == H.Frame(CL_DISCONNECTED, Some(r.id), r.name, Some(r.colorId), f.content))
  }

  ghost predicate WordsRight(s: Server, id: int) {
    FaceOf(s.table, id).Some? ==>
      forall k | 0 <= k < |Of(s.pushed, id)| :: WordRight(Of(s.pushed, id)[k], FaceOf(s.table, id).value)
  }

  /** Of a connection for which something has been pushed, the record keeps its id, name and colour. */
  ghost predicate SameBearer(a: Option<Record>, b: Option<Record>) {
    b.Some? ==> a.Some? && b.value.id == a.value.id && b.value.name == a.value.name && b.value.colorId == a.value.colorId
  }

  lemma KeepWords(s: Server, s': Server, id: int, out: seq<H.Frame>)
    requires WordsRight(s, id) && Of(s'.pushed, id) == Of(s.pushed, id) + out
    requires Of(s.pushed, id) != [] ==> SameBearer(FaceOf(s.table, id), FaceOf(s'.table, id))
    requires FaceOf(s'.table, id).Some? ==> forall k | 0 <= k < |out| :: WordRight(out[k], FaceOf(s'.table, id).value)
    ensures WordsRight(s', id)
  {
  }

  lemma ServedFace(s: Server, w: nat, j: nat, r: Record, out: seq<H.Frame>, id: int)
    requires Inv(s) && Serves(s, w, j) && SlotAt(s, w, j) < |s.table.slots| && r.id == IdAt(s, w, j)
    ensures FaceOf(Served(s, w, j, r, out).table, id) == if id == r.id then Some(Face(r)) else FaceOf(s.table, id)
    ensures FaceOf(s.table, r.id) == Some(Face(RecordAt(s, w, j)))
  {
    EntryHasRecord(s, w, j);
    SetFace(s.table, Served(s, w, j, r, out).table, SlotAt(s, w, j), r);
  }

  /** A record is named in its first state and not after. */
  lemma InputSpeaks(r: Record, f: H.Frame)
    ensures var (r', _, out) := H.ServerInput(r, f);
            && (r.state != INITIAL_STATE ==> r'.name == r.name)
            && forall k | 0 <= k < |out| :: WordRight(out[k], Face(r'))
  {
  }

  lemma InputWords(s: Server, w: nat, j: nat, f: H.Frame, id: int)
    requires Inv(s) && WordsRight(s, id)
    ensures WordsRight(InputStep(s, w, j, f), id)
  {
    if Serves(s, w, j) {
      EntryHasRecord(s, w, j);
      var (r, _, out) := H.ServerInput(RecordAt(s, w, j), f);
      InputKeepsFd(RecordAt(s, w, j), f);
      InputSpeaks(RecordAt(s, w, j), f);
      ServedFace(s, w, j, r, out, id);
      InputPushes(s, w, j, f, id);
      KeepWords(s, InputStep(s, w, j, f), id, Pushes(s, Input(w, j, f), id));
    }
  }

  lemma SweptWords(s: Server, w: nat, j: nat, leftover: string, id: int)
    requires Inv(s) && WordsRight(s, id)
    ensures WordsRight(SweepStep(s, w, j, leftover), id)
  {
    if Serves(s, w, j) {
      EntryHasRecord(s, w, j);
      SweepPushes(s, w, j, leftover, id);
      KeepWords(s, SweepStep(s, w, j, leftover), id, Pushes(s, Sweep(w, j, leftover), id));
    }
  }

  lemma MarkedWords(s: Server, w: nat, j: nat, id: int)
    requires Inv(s) && WordsRight(s, id)
    ensures WordsRight(EndOfFileStep(s, w, j), id) && WordsRight(OutputStep(s, w, j), id)
  {
    if Serves(s, w, j) {
      EntryHasRecord(s, w, j);
      ServedFace(s, w, j, RecordAt(s, w, j).(state := DISCONNECT_STATE), [], id);
      var r := H.ServerOutput(RecordAt(s, w, j)).0;
      ServedFace(s, w, j, if r.state == INITIALIZED then r.(queue := []) else r, [], id);
    }
  }

  lemma AcceptedWords(s: Server, limit: int, fd: nat, color: int, h: bool, id: int)
    requires Inv(s) && WordsRight(s, id)
    ensures WordsRight(AcceptStep(s, limit, fd, color, h), id)
  {
    if s.listening && FirstFree(s.table.slots) < |s.table.slots| {
      var s' := AcceptStep(s, limit, fd, color, h);
      assert TalkAt(s, id);
      AcceptFace(s.table, fd, color);
      assert s'.pushed == s.pushed && s'.table == ClientTable.Accept(s.table, fd, color).0;
      assert Of(s.pushed, id) + [] == Of(s.pushed, id);
      KeepWords(s, s', id, []);
    }
  }

  lemma HandledWords(s: Server, queueSize: nat, k: nat, id: int)
    requires Inv(s) && WordsRight(s, id)
    ensures WordsRight(HandleStep(s, queueSize, k), id)
  {
    if s.listening && k < |s.posts| && Ids(s.table.slots) != []
       && s.posts[k].frame.id.Some? && 0 <= s.posts[k].number < |s.pool.workers|
    {
      HandleKeepsFaces(s.table, s.pool, queueSize, NoteOf(s.posts[k]));
    }
  }

  lemma StepWords(s: Server, limit: int, queueSize: nat, e: Event, id: int)
    requires Inv(s) && WordsRight(s, id)
    ensures WordsRight(Step(s, limit, queueSize, e), id)
  {
    match e
    case Input(w, j, f) => InputWords(s, w, j, f, id);
    case Sweep(w, j, c) => SweptWords(s, w, j, c, id);
    case EndOfFile(w, j) => MarkedWords(s, w, j, id);
    case Output(w, j) => MarkedWords(s, w, j, id);
    case Accept(fd, color, h) => AcceptedWords(s, limit, fd, color, h, id);
    case HandlePost(k) => HandledWords(s, queueSize, k, id);
    case Fetch(_, _) =>
  }

  lemma {:induction false} WordsInRun(s: Server, limit: int, queueSize: nat, run: seq<Event>, id: int)
    requires Inv(s) && WordsRight(s, id)
    ensures WordsRight(Run(s, limit, queueSize, run), id)
    decreases |run|
  {
    if run != [] {
      StepKeeps(s, limit, queueSize, run[0]);
      StepWords(s, limit, queueSize, run[0], id);
      WordsInRun(Step(s, limit, queueSize, run[0]), limit, queueSize, run[1..], id);
    }
  }

  /** In every run of the whole server the chat pushed for a connection is exactly the chat frames read from it in its
      last state, field for field and in order; and while it has a record, its announcement and its farewell carry the
      id, colour and name of that record. */
  lemma PushedForEachConnection(clients: nat, threads: nat, limit: int, queueSize: nat, run: seq<Event>, id: int)
    ensures var s0 := Start(clients, threads);
            var s := Run(s0, limit, queueSize, run);
            && D.ChatOf(Of(s.pushed, id)) == AllChatRead(s0, limit, queueSize, run, id)
            && (FaceOf(s.table, id).Some? ==>
                  forall k | 0 <= k < |Of(s.pushed, id)| :: WordRight(Of(s.pushed, id)[k], FaceOf(s.table, id).value))
  {
    var s0 := Start(clients, threads);
    StartIsRight(clients, threads);
    ChatInRun(s0, limit, queueSize, run, id);
    assert [] + AllChatRead(s0, limit, queueSize, run, id) == AllChatRead(s0, limit, queueSize, run, id);
    WordsInRun(s0, limit, queueSize, run, id);
  }

  // ---------------------------------------------------------------- messages wait in their queues

  function QueueOf(t: Table, id: int): seq<string> {
    var r := RecordOf(t, id);
    if r.Some? then r.value.queue else []
  }

  /** Nothing is taken off the queue of a connection that still has a record. */
  ghost predicate Waits(t: Table, t': Table, id: int) { RecordOf(t', id).Some? ==> QueueOf(t, id) <= QueueOf(t', id) }

  lemma UnicastWaits(t: Table, slots: seq<Option<Record>>, id: int)
    requires OnlyQueuesDiffer(t.slots, slots)
    ensures Waits(t, t.(slots := slots), id)
    ensures RecordOf(t, id).None? <==> RecordOf(t.(slots := slots), id).None?
  {
    SameFind(t.slots, slots, id);
  }

  lemma SendWaits(t: Table, queueSize: nat, ids: seq<int>, e: B.Entry, id: int)
    ensures var t' := t.(slots := Unicast(t.slots, queueSize, e.excepted, ids, e.text).0);
            Waits(t, t', id) && (RecordOf(t, id).None? <==> RecordOf(t', id).None?)
  {
    UnicastChangesQueues(t.slots, queueSize, e.excepted, ids, e.text);
    UnicastWaits(t, Unicast(t.slots, queueSize, e.excepted, ids, e.text).0, id);
  }

  lemma DisconnectWaits(t: Table, gone: int, id: int)
    requires TableInv(t) && Disconnect(t, gone).Some?
    ensures var d := Disconnect(t, gone).value; RecordOf(d, id) == if id == gone then None else RecordOf(t, id)
  {
    DisconnectKeepsTable(t, gone);
    if id != gone { SameFind(t.slots, Disconnect(t, gone).value.slots, id); }
  }

  lemma DepartureWaits(t: Table, p: L.Pool, queueSize: nat, ids: seq<int>, m: B.Note, e: B.Entry, id: int)
    requires TableInv(t) && m.thread < |p.workers|
    ensures Waits(t, B.HandleDeparture(t, p, queueSize, ids, m, e).0, id)
  {
    var d := Disconnect(t, m.id);
    if d.Some? {
      DisconnectWaits(t, m.id, id);
      SendWaits(d.value, queueSize, ids, e, id);
    }
  }

  lemma HandleWaits(t: Table, p: L.Pool, queueSize: nat, m: B.Note, id: int)
    requires TableInv(t) && m.thread < |p.workers|
    ensures Waits(t, B.Handle(t, p, queueSize, m).0, id)
  {
    var ids := Ids(t.slots);
    if B.EntryOf(m).Some? {
      var e := B.EntryOf(m).value;
      if m.fields.action == ActionName(CL_DISCONNECTED) {
        DepartureWaits(t, p, queueSize, ids, m, e, id);
      } else {
        SendWaits(t, queueSize, ids, e, id);
      }
    }
  }

  lemma ServedWaits(s: Server, w: nat, j: nat, r: Record, out: seq<H.Frame>, id: int)
    requires Inv(s) && Serves(s, w, j) && SlotAt(s, w, j) < |s.table.slots| && r.id == IdAt(s, w, j)
    ensures RecordOf(Served(s, w, j, r, out).table, id) == if id == r.id then Some(r) else RecordOf(s.table, id)
    ensures RecordOf(s.table, r.id) == Some(RecordAt(s, w, j))
  {
    EntryHasRecord(s, w, j);
    var t' := Served(s, w, j, r, out).table;
    if id == r.id {
      assert HasId(t'.slots[SlotAt(s, w, j)], id);
    } else {
      SameFind(s.table.slots, t'.slots, id);
    }
  }

  /** The entry at which a worker's socket can be written, if it is that of connection `id`, in its last state. */
  ghost predicate Drains(s: Server, e: Event, id: int) {
    && e.Output? && Serves(s, e.thread, e.entry) && IdAt(s, e.thread, e.entry) == id
    && StateOf(s.table, id) == Some(INITIALIZED)
  }

  lemma OutputWaits(s: Server, w: nat, j: nat, id: int)
    requires Inv(s)
    ensures var s' := OutputStep(s, w, j);
            if Drains(s, Output(w, j), id) then QueueOf(s'.table, id) == [] else Waits(s.table, s'.table, id)
  {
    if Serves(s, w, j) {
      EntryHasRecord(s, w, j);
      var r := H.ServerOutput(RecordAt(s, w, j)).0;
      ServedWaits(s, w, j, if r.state == INITIALIZED then r.(queue := []) else r, [], id);
    }
  }

  lemma AcceptWaits(t: Table, fd: nat, color: int, id: int)
    requires TableInv(t)
    ensures Waits(t, ClientTable.Accept(t, fd, color).0, id)
  {
    AcceptKeepsTable(t, fd, color);
    var t' := ClientTable.Accept(t, fd, color).0;
    if t' != t && id != t.nextId { SameFind(t.slots, t'.slots, id); }
  }

  /** In every run a message on a connection's queue stays there, behind those before it, until the connection's own
      worker writes to its socket in the last state, which empties the queue; or until the connection is gone. */
  lemma MessagesWait(clients: nat, threads: nat, limit: int, queueSize: nat, run: seq<Event>, e: Event, id: int)
    ensures var s := Run(Start(clients, threads), limit, queueSize, run);
            var s' := Step(s, limit, queueSize, e);
            if Drains(s, e, id) then QueueOf(s'.table, id) == [] else Waits(s.table, s'.table, id)
  {
    StartIsRight(clients, threads);
    RunKeeps(Start(clients, threads), limit, queueSize, run);
    StepWaits(Run(Start(clients, threads), limit, queueSize, run), limit, queueSize, e, id);
  }

  lemma StepWaits(s: Server, limit: int, queueSize: nat, e: Event, id: int)
    requires Inv(s)
    ensures var s' := Step(s, limit, queueSize, e);
            if Drains(s, e, id) then QueueOf(s'.table, id) == [] else Waits(s.table, s'.table, id)
  {
    match e
    case Accept(fd, color, h) => AcceptWaits(s.table, fd, color, id);
    case HandlePost(k) =>
      if k < |s.posts| && s.posts[k].frame.id.Some? && 0 <= s.posts[k].number < |s.pool.workers| {
        HandleWaits(s.table, s.pool, queueSize, NoteOf(s.posts[k]), id);
      }
    case Input(w, j, f) =>
      if Serves(s, w, j) {
        EntryHasRecord(s, w, j);
        var (r, _, out) := H.ServerInput(RecordAt(s, w, j), f);
        InputKeepsFd(RecordAt(s, w, j), f);
        ServedWaits(s, w, j, r, out, id);
      }
    case EndOfFile(w, j) =>
      if Serves(s, w, j) {
        EntryHasRecord(s, w, j);
        ServedWaits(s, w, j, RecordAt(s, w, j).(state := DISCONNECT_STATE), [], id);
      }
    case Output(w, j) => OutputWaits(s, w, j, id);
    case _ =>
  }

  // ---------------------------------------------------------------- connections that close

  /** A connection found closed by its worker is off its list after the next sweep of its entry, and its farewell, with
      its record's id, name and colour and its worker's number, is the last thing posted. */
  lemma ClosedConnectionLeaves(clients: nat, threads: nat, limit: int, queueSize: nat, run: seq<Event>, w: nat, j: nat,
                               leftover: string)
    requires Serves(Run(Start(clients, threads), limit, queueSize, run), w, j)
    ensures var s := Run(Start(clients, threads), limit, queueSize, run);
            var id, r := IdAt(s, w, j), RecordOf(s.table, IdAt(s, w, j));
            var s' := Step(Step(s, limit, queueSize, EndOfFile(w, j)), limit, queueSize, Sweep(w, j, leftover));
            && r.Some? && IsAt(s', id, Leaving)
            && s'.threads == s.threads[w := s.threads[w].(clients := Without(s.threads[w].clients, j))]
            && s'.posts == s.posts + [Post(id, s.threads[w].number,
                 H.Frame(CL_DISCONNECTED, Some(id), r.value.name, Some(r.value.colorId), leftover))]
  {
    var s := Run(Start(clients, threads), limit, queueSize, run);
    StartIsRight(clients, threads);
    RunKeeps(Start(clients, threads), limit, queueSize, run);
    EntryHasRecord(s, w, j);
    var marked := RecordAt(s, w, j).(state := DISCONNECT_STATE);
    ServedWaits(s, w, j, marked, [], IdAt(s, w, j));
    EndOfFileKeeps(s, w, j);
    EntryHasRecord(EndOfFileStep(s, w, j), w, j);
  }

  /** A worker reads a goodbye from connection `id`, or finds it closed. */
  predicate Closes(s: Server, e: Event, id: int) {
    match e
    case Input(w, j, f) => f.action == CL_DISCONNECTED && Serves(s, w, j) && IdAt(s, w, j) == id
    case EndOfFile(w, j) => Serves(s, w, j) && IdAt(s, w, j) == id
    case _ => false
  }

  predicate EverCloses(s: Server, limit: int, queueSize: nat, run: seq<Event>, id: int)
    decreases |run|
  {
    run != [] && (Closes(s, run[0], id) || EverCloses(Step(s, limit, queueSize, run[0]), limit, queueSize, run[1..], id))
  }

  /** A record is marked for departure exactly when its connection has closed or said goodbye. */
  ghost predicate MarkRight(s: Server, id: int, closed: bool) {
    var state := StateOf(s.table, id);
    && (state.Some? ==> (state.value == DISCONNECT_STATE <==> closed))
    && (closed ==> 0 <= id < |s.places|)
  }

  lemma InputMarks(r: Record, f: H.Frame)
    ensures H.ServerInput(r, f).0.state == DISCONNECT_STATE <==> r.state == DISCONNECT_STATE || f.action == CL_DISCONNECTED
  {
  }

  lemma ServedState(s: Server, w: nat, j: nat, r: Record, out: seq<H.Frame>, id: int)
    requires Inv(s) && Serves(s, w, j) && SlotAt(s, w, j) < |s.table.slots| && r.id == IdAt(s, w, j)
    ensures var s' := Served(s, w, j, r, out);
            && StateOf(s'.table, id) == (if id == r.id then Some(r.state) else StateOf(s.table, id))
            && s'.places == s.places
  {
    EntryHasRecord(s, w, j);
    SetKeepsTable(s.table, SlotAt(s, w, j), r);
  }

  lemma WorkerMarks(s: Server, limit: int, queueSize: nat, e: Event, id: int, closed: bool)
    requires Inv(s) && MarkRight(s, id, closed) && (e.Input? || e.EndOfFile? || e.Output?)
    ensures MarkRight(Step(s, limit, queueSize, e), id, closed || Closes(s, e, id))
  {
    if Serves(s, e.thread, e.entry) {
      var w, j := e.thread, e.entry;
      EntryHasRecord(s, w, j);
      match e
      case Input(_, _, f) =>
        var (r, _, out) := H.ServerInput(RecordAt(s, w, j), f);
        InputKeepsFd(RecordAt(s, w, j), f);
        InputMarks(RecordAt(s, w, j), f);
        ServedState(s, w, j, r, out, id);
      case EndOfFile(_, _) => ServedState(s, w, j, RecordAt(s, w, j).(state := DISCONNECT_STATE), [], id);
      case Output(_, _) =>
        var r := H.ServerOutput(RecordAt(s, w, j)).0;
        ServedState(s, w, j, if r.state == INITIALIZED then r.(queue := []) else r, [], id);
    }
  }

  lemma ListenerMarks(s: Server, limit: int, queueSize: nat, e: Event, id: int, closed: bool)
    requires Inv(s) && MarkRight(s, id, closed) && (e.Accept? || e.HandlePost?)
    ensures MarkRight(Step(s, limit, queueSize, e), id, closed)
  {
    match e
    case Accept(fd, color, h) =>
      if s.listening && FirstFree(s.table.slots) < |s.table.slots| {
        AcceptKeepsStates(s.table, fd, color);
        AcceptShape(s, limit, fd, color, h);
      }
    case HandlePost(k) =>
      HandledSize(s, queueSize, k);
      if s.listening && k < |s.posts| && Ids(s.table.slots) != []
         && s.posts[k].frame.id.Some? && 0 <= s.posts[k].number < |s.pool.workers|
      {
        HandleKeepsStates(s.table, s.pool, queueSize, NoteOf(s.posts[k]));
      }
  }

  lemma {:induction false} MarkInRun(s: Server, limit: int, queueSize: nat, run: seq<Event>, id: int, closed: bool)
    requires Inv(s) && MarkRight(s, id, closed)
    ensures Inv(Run(s, limit, queueSize, run))
    ensures MarkRight(Run(s, limit, queueSize, run), id, closed || EverCloses(s, limit, queueSize, run, id))
    decreases |run|
  {
    if run != [] {
      var e := run[0];
      StepKeeps(s, limit, queueSize, e);
      if e.Accept? || e.HandlePost? {
        ListenerMarks(s, limit, queueSize, e, id, closed);
      } else if e.Fetch? || e.Sweep? {
        WorkersKeepSize(s, limit, queueSize, e);
      } else {
        WorkerMarks(s, limit, queueSize, e, id, closed);
      }
      MarkInRun(Step(s, limit, queueSize, e), limit, queueSize, run[1..], id, closed || Closes(s, e, id));
    }
  }

  /** In every run a worker lets a connection go only if it has read its goodbye or found it closed; and as long as the
      connection has a record, that record is marked exactly then. */
  lemma LetGoOnlyIfClosed(clients: nat, threads: nat, limit: int, queueSize: nat, run: seq<Event>, id: int)
    ensures var s0 := Start(clients, threads);
            var s := Run(s0, limit, queueSize, run);
            && (StateOf(s.table, id).Some? ==>
                  (StateOf(s.table, id) == Some(DISCONNECT_STATE) <==> EverCloses(s0, limit, queueSize, run, id)))
            && (IsAt(s, id, Leaving) ==> EverCloses(s0, limit, queueSize, run, id))
  {
    var s0 := Start(clients, threads);
    StartIsRight(clients, threads);
    NobodyIn(clients, id);
    MarkInRun(s0, limit, queueSize, run, id, false);
    var s := Run(s0, limit, queueSize, run);
    assert TalkAt(s, id);
  }

  lemma NobodyIn(clients: nat, id: int)
    ensures StateOf(Table(seq(clients, _ => None), 0, 0), id) == None
  {
    var slots: seq<Option<Record>> := seq(clients, _ => None);
    assert forall i | 0 <= i < clients :: !HasId(slots[i], id);
  }

  // ---------------------------------------------------------------- what ends for good

  /** A worker that has run out of connections never serves one again. */
  lemma {:induction false} EndedForEver(s: Server, limit: int, queueSize: nat, run: seq<Event>, w: nat)
    requires w < |s.threads| && s.threads[w].clients == []
    ensures var r := Run(s, limit, queueSize, run); w < |r.threads| && r.threads[w].clients == []
    decreases |run|
  {
    if run != [] {
      EndedStep(s, limit, queueSize, run[0], w);
      EndedForEver(Step(s, limit, queueSize, run[0]), limit, queueSize, run[1..], w);
    }
  }

  lemma EndedStep(s: Server, limit: int, queueSize: nat, e: Event, w: nat)
    requires w < |s.threads| && s.threads[w].clients == []
    ensures var s' := Step(s, limit, queueSize, e); w < |s'.threads| && s'.threads[w].clients == []
  {
  }

  /** A post without an id, such as that of a line typed too early, stops the listener if anyone is connected: from then
      on nobody is accepted, and no post is handled. */
  lemma NoIdStopsTheListener(s: Server, limit: int, queueSize: nat, k: nat, run: seq<Event>)
    requires TableInv(s.table) && s.table.connections > 0 && s.listening && k < |s.posts| && s.posts[k].frame.id.None?
    ensures var s1 := Step(s, limit, queueSize, HandlePost(k));
            var r := Run(s1, limit, queueSize, run);
            && !s1.listening && !r.listening && r.table.nextId == s.table.nextId && r.pool == s.pool && s1.posts <= r.posts
  {
    IdsAreExact(s.table.slots);
    StoppedForEver(Step(s, limit, queueSize, HandlePost(k)), limit, queueSize, run);
  }

  lemma {:induction false} StoppedForEver(s: Server, limit: int, queueSize: nat, run: seq<Event>)
    requires !s.listening
    ensures var r := Run(s, limit, queueSize, run);
            !r.listening && r.table.nextId == s.table.nextId && r.pool == s.pool && s.posts <= r.posts
    decreases |run|
  {
    if run != [] {
      StoppedStep(s, limit, queueSize, run[0]);
      StoppedForEver(Step(s, limit, queueSize, run[0]), limit, queueSize, run[1..]);
    }
  }

  lemma StoppedStep(s: Server, limit: int, queueSize: nat, e: Event)
    requires !s.listening
    ensures var r := Step(s, limit, queueSize, e);
            !r.listening && r.table.nextId == s.table.nextId && r.pool == s.pool && s.posts <= r.posts
  {
  }
}
