/** The handshake between one client process and the worker that serves it: two client threads, the worker,
    and a first-in first-out channel of whole frames in each direction, in every interleaving. */
module Handshake {
  import opened Wrappers
  import opened Resources
  import opened ClientTable
  import ChatServer

  /** A frame; an absent id or colour is an empty field. */
  datatype Frame = Frame(action: Action, id: Option<int>, name: string, color: Option<int>, content: string)

  const BLANK: Frame := Frame(OTHER, None, "", None, "")

  // ---------------------------------------------------------------- the worker

  /** process_client_state on input: the record afterwards, the frames sent to the client, and the messages
      pushed to the listener. */
  function ServerInput(r: Record, f: Frame): (Record, seq<Frame>, seq<Frame>) {
    if f.action == CL_DISCONNECTED then (r.(state := DISCONNECT_STATE), [], [])
    else if r.state == INITIAL_STATE && f.action == INIT_REQ then (r.(state := r.state + 1, name := f.name), [], [])
    else if r.state == SENT_INIT_CONFIRMATION && f.action == INIT_DONE then
      var hello := Frame(UNICAST_REPEATED, Some(r.id), SERVER_NAME, Some(r.colorId), "Hello " + r.name + ", now you can chat!");
      (r.(state := r.state + 1), [hello], [hello.(action := INIT_DONE, content := r.name + " Has Just Connected!")])
    else if r.state == INITIALIZED && f.action == UNICAST_REPEATED then (r, [], [f])
    else (r, [], [])
  }

  function Confirmation(r: Record): Frame { Frame(INIT_REQ, Some(r.id), r.name, Some(r.colorId), "") }

  /** process_client_state on output, the handshake's part of it. */
  function ServerOutput(r: Record): (Record, seq<Frame>) {
    if r.state == REQUESTED_INIT then (r.(state := r.state + 1), [Confirmation(r)]) else (r, [])
  }

  /** The message a worker pushes when it lets a client go. */
  function Farewell(r: Record): Frame { Frame(CL_DISCONNECTED, Some(r.id), r.name, Some(r.colorId), "") }

  method ProcessInput(cl: ChatServer.ClientData, f: Frame) returns (sent: seq<Frame>, pushed: seq<Frame>)
    modifies cl
    ensures (cl.View(), sent, pushed) == ServerInput(old(cl.View()), f)
  {
    sent, pushed := [], [];
    if f.action == CL_DISCONNECTED {
      cl.SetState(DISCONNECT_STATE);
    }
    if cl.initState == INITIAL_STATE {
      if f.action == INIT_REQ {
        cl.IncState();
        cl.name := f.name;
      }
    } else if cl.initState == SENT_INIT_CONFIRMATION {
      if f.action == INIT_DONE {
        cl.IncState();
        var hello := Frame(UNICAST_REPEATED, Some(cl.personalId), SERVER_NAME, Some(cl.colorId),
                           "Hello " + cl.name + ", now you can chat!");
        sent := [hello];
        pushed := [hello.(action := INIT_DONE, content := cl.name + " Has Just Connected!")];
      }
    } else if cl.initState == INITIALIZED {
      if f.action == UNICAST_REPEATED {
        pushed := [f];
      }
    }
  }

  /** In state INITIALIZED the whole send queue goes out, oldest first. */
  method ProcessOutput(cl: ChatServer.ClientData) returns (sent: seq<Frame>, drained: seq<string>)
    modifies cl
    ensures (cl.View().(queue := old(cl.sendQueue)), sent) == ServerOutput(old(cl.View()))
    ensures drained + cl.sendQueue == old(cl.sendQueue)
    ensures cl.sendQueue == if old(cl.initState) == INITIALIZED then [] else old(cl.sendQueue)
  {
    sent, drained := [], [];
    if cl.initState == REQUESTED_INIT {
      cl.IncState();
      sent := [Frame(INIT_REQ, Some(cl.personalId), cl.name, Some(cl.colorId), "")];
    } else if cl.initState == INITIALIZED {
      while cl.sendQueue != []
        invariant cl.View() == old(cl.View()).(queue := cl.sendQueue)
        invariant drained + cl.sendQueue == old(cl.sendQueue)
        decreases |cl.sendQueue|
      {
        var msg := cl.TryPop();
        drained := drained + [msg.value];
      }
    }
  }

  // ---------------------------------------------------------------- the client

  /** The client's sending thread: at its loop, having sent the request but not set `init_req` yet, or holding
      a composed message. */
  datatype Sender = AtLoop | Requested | Composed

  /** The client's receiving thread: waiting, holding a frame, or in the steps of `finalize_init`. */
  datatype Receiver = Waiting | Got(frame: Frame) | SetColor(frame: Frame) | SetId(frame: Frame) | SetDone | Reply

  datatype Client = Client(
    name: string, color: int, id: Option<int>, initReq: bool, initDone: bool, stopped: bool,
    sender: Sender, draft: Frame, receiver: Receiver)

  datatype SenderEvent =
    | SendRequest                 // send INIT_REQ
    | RaiseFlag                   // set init_req
    | Type(line: string)          // a line from the user: text, nothing, or the quit command
    | SendDraft                   // send the composed message

  /** One access of the sending thread: the client afterwards, and what it sends. */
  function SenderStep(c: Client, e: SenderEvent): (Client, seq<Frame>) {
    match e
    case SendRequest =>
      if c.sender.AtLoop? && !c.initReq && !c.stopped && c.name != "" then
        var f := c.draft.(action := INIT_REQ, name := c.name, color := Some(c.color));
        (c.(draft := f, sender := Requested), [f])
      else (c, [])
    case RaiseFlag => if c.sender.Requested? then (c.(initReq := true, sender := AtLoop), []) else (c, [])
    case Type(line) =>
      if c.sender.AtLoop? && c.initReq && !c.stopped then
        if line == "" then (c.(draft := BLANK), [])
        else if line == QUIT_MSG then
          (c.(stopped := true, draft := c.draft.(action := CL_DISCONNECTED, name := c.name, id := c.id), sender := Composed), [])
        else (c.(draft := Frame(UNICAST_REPEATED, c.id, c.name, Some(c.color), line), sender := Composed), [])
      else (c, [])
    case SendDraft =>
      if c.sender.Composed? then (c.(draft := BLANK, sender := AtLoop), [c.draft]) else (c, [])
  }

  /** One access of the receiving thread once it has a frame. A frame that comes before `init_req` is set is
      dropped, and one without a colour makes `finalize_init` throw before it has changed anything. */
  function ReceiverStep(c: Client): (Client, seq<Frame>) {
    match c.receiver
    case Waiting => (c, [])
    case Got(f) =>
      if c.initReq && !c.initDone && f.action == INIT_REQ && f.color.Some? then (c.(receiver := SetColor(f)), [])
      else (c.(receiver := Waiting), [])
    case SetColor(f) => (c.(color := if f.color.Some? then f.color.value else c.color, receiver := SetId(f)), [])
    case SetId(f) => (c.(id := f.id, receiver := SetDone), [])
    case SetDone => (c.(initDone := true, receiver := Reply), [])
    case Reply => (c.(receiver := Waiting), [BLANK.(action := INIT_DONE)])
  }

  // ---------------------------------------------------------------- the client's own code

  function Rank(r: Receiver): nat {
    match r
    case Waiting => 0 case Reply => 1 case SetDone => 2 case SetId(_) => 3 case SetColor(_) => 4 case Got(_) => 5
  }

  /** The receiving thread's accesses up to its next wait, uninterrupted. */
  function Settle(c: Client): (Client, seq<Frame>)
    decreases Rank(c.receiver)
  {
    if c.receiver.Waiting? then (c, [])
    else
      var (c1, sent1) := ReceiverStep(c);
      var (c2, sent2) := Settle(c1);
      (c2, sent1 + sent2)
  }

  /** A confirmation that comes in time is acted upon in full; any other frame leaves the client as it was. */
  lemma SettleIsAllOrNothing(c: Client, f: Frame)
    requires c.receiver.Waiting?
    ensures Settle(c.(receiver := Got(f))) ==
              if c.initReq && !c.initDone && f.action == INIT_REQ && f.color.Some? then
                (c.(color := f.color.value, id := f.id, initDone := true), [BLANK.(action := INIT_DONE)])
              else (c, [])
  {
    if c.initReq && !c.initDone && f.action == INIT_REQ && f.color.Some? {
      var c1 := c.(receiver := SetColor(f));
      var c2 := c1.(color := f.color.value, receiver := SetId(f));
      var c3 := c2.(id := f.id, receiver := SetDone);
      var c4 := c3.(initDone := true, receiver := Reply);
      var done := [BLANK.(action := INIT_DONE)];
      assert Settle(c4) == (c4.(receiver := Waiting), done) by { assert done + [] == done; }
      assert Settle(c3) == Settle(c4) by { assert [] + done == done; }
      assert Settle(c2) == Settle(c3) by { assert [] + done == done; }
      assert Settle(c1) == Settle(c2) by { assert [] + done == done; }
      assert Settle(c.(receiver := Got(f))) == Settle(c1) by { assert [] + done == done; }
    } else {
      assert ReceiverStep(c.(receiver := Got(f))) == (c, []);
      var none: seq<Frame> := [];
      assert Settle(c) == (c, none) && none + none == none;
    }
  }

  /** The sending thread's two accesses for one event, uninterrupted. */
  function Finish(c: Client, first: SenderEvent, second: SenderEvent): (Client, seq<Frame>) {
    var (c1, sent1) := SenderStep(c, first);
    var (c2, sent2) := SenderStep(c1, second);
    (c2, sent1 + sent2)
  }

  class ClientObject {
    const name: string
    var color: int
    var id: Option<int>
    var initReq: bool
    var initDone: bool
    var stopped: bool
    var draft: Frame

    /** Between accesses of either thread. */
    function View(): Client
      reads this
    {
      Client(name, color, id, initReq, initDone, stopped, AtLoop, draft, Waiting)
    }

    constructor (name: string, color: int)
      ensures View() == Client(name, color, None, false, false, false, AtLoop, BLANK, Waiting)
    {
      this.name, this.color, id, initReq, initDone, stopped, draft := name, color, None, false, false, false, BLANK;
    }

    method FinalizeInit(f: Frame) returns (sent: seq<Frame>)
      requires initReq && !initDone
      modifies this`color, this`id, this`initDone
      ensures (View(), sent) == Settle(old(View()).(receiver := Got(f)))
    {
      SettleIsAllOrNothing(View(), f);
      sent := [];
      if f.action == INIT_REQ {
        if f.color.None? { return; }
        color := f.color.value;
        id := f.id;
        initDone := true;
        sent := [BLANK.(action := INIT_DONE)];
      }
    }

    method ReceiveMsgFromSv(f: Frame) returns (sent: seq<Frame>)
      modifies this`color, this`id, this`initDone
      ensures (View(), sent) == Settle(old(View()).(receiver := Got(f)))
    {
      SettleIsAllOrNothing(View(), f);
      sent := [];
      if !initReq { return; }
      if !initDone {
        sent := FinalizeInit(f);
      }
    }

    method SendMsgFromStdin(buffer: string) returns (sent: seq<Frame>)
      requires initReq && !stopped
      modifies this`stopped, this`draft
      ensures (View(), sent) == Finish(old(View()), Type(buffer), SendDraft)
      ensures buffer == QUIT_MSG ==>
                |sent| == 1 && sent[0].action == CL_DISCONNECTED && sent[0].name == name && sent[0].id == id && stopped
      ensures buffer == "" ==> sent == []
      ensures buffer != QUIT_MSG && buffer != "" ==> sent == [Frame(UNICAST_REPEATED, id, name, Some(color), buffer)]
    {
      sent := [];
      if buffer == QUIT_MSG {
        stopped := true;
        draft := draft.(action := CL_DISCONNECTED, name := name, id := id);
        sent := [draft];
      } else if buffer != "" {
        draft := draft.(action := UNICAST_REPEATED, name := name, id := id, color := Some(color), content := buffer);
        sent := [draft];
      }
      assert [] + sent == sent;
      draft := BLANK;
    }

    /** The send loop's turn before it is initialised. */
    method RequestInit() returns (sent: seq<Frame>)
      requires !initReq && !stopped
      modifies this`initReq, this`draft
      ensures (View(), sent) == Finish(old(View()), SendRequest, RaiseFlag)
      ensures name == "" ==> sent == [] && !initReq
      ensures name != "" ==> |sent| == 1 && sent[0].action == INIT_REQ && sent[0].name == name && initReq
    {
      sent := [];
      if name != "" {
        draft := draft.(action := INIT_REQ, name := name, color := Some(color));
        sent := [draft];
        initReq := true;
      }
      assert sent + [] == sent;
    }
  }

  // ---------------------------------------------------------------- the product machine

  /** The worker's record of the client, whether it still serves it, what it has pushed to the listener, and
      the states the record has been in. */
  datatype Worker = Worker(record: Record, serving: bool, pushed: seq<Frame>, path: seq<int>)

  datatype WorkerEvent =
    | EndOfFile                   // the client has closed its end
    | Output                      // the socket can be written
    | Deliver(broadcast: Frame)   // a message from the record's send queue
    | Retire                      // let a disconnected client go

  function Moved(w: Worker, r: Record): Worker {
    w.(record := r, path := if r.state == w.record.state then w.path else w.path + [r.state])
  }

  function Take(w: Worker, f: Frame): (Worker, seq<Frame>) {
    var (r, sent, pushed) := ServerInput(w.record, f);
    (Moved(w, r).(pushed := w.pushed + pushed), sent)
  }

  function WorkerStep(w: Worker, e: WorkerEvent): (Worker, seq<Frame>) {
    match e
    case EndOfFile => (Moved(w, w.record.(state := DISCONNECT_STATE)), [])
    case Output =>
      var (r, sent) := ServerOutput(w.record);
      (Moved(w, r), sent)
    case Deliver(f) =>
      if w.record.state == INITIALIZED && (f.action == UNICAST_REPEATED || f.action == SV_DISCONNECTED) then (w, [f])
      else (w, [])
    case Retire =>
      if w.record.state == DISCONNECT_STATE then (w.(serving := false, pushed := w.pushed + [Farewell(w.record)]), [])
      else (w, [])
  }

  /** A channel: what is under way, and everything ever put in. */
  datatype Channel = Channel(frames: seq<Frame>, sent: seq<Frame>)

  function Put(ch: Channel, fs: seq<Frame>): Channel { Channel(ch.frames + fs, ch.sent + fs) }

  datatype System = System(client: Client, up: Channel, down: Channel, worker: Worker)

  datatype Event =
    | Sends(s: SenderEvent)       // the client's sending thread
    | Receive                     // the receiving thread takes a frame from the channel
    | Advance                     // the receiving thread's next access
    | Input                       // the worker takes a frame from the channel
    | Serves(w: WorkerEvent)      // another step of the worker

  function Step(s: System, e: Event): System {
    match e
    case Sends(se) =>
      var (c, sent) := SenderStep(s.client, se);
      s.(client := c, up := Put(s.up, sent))
    case Receive =>
      if s.client.receiver.Waiting? && s.down.frames != [] then
        s.(client := s.client.(receiver := Got(s.down.frames[0])), down := s.down.(frames := s.down.frames[1..]))
      else s
    case Advance =>
      var (c, sent) := ReceiverStep(s.client);
      s.(client := c, up := Put(s.up, sent))
    case Input =>
      if s.worker.serving && s.up.frames != [] then
        var (w, sent) := Take(s.worker, s.up.frames[0]);
        s.(worker := w, up := s.up.(frames := s.up.frames[1..]), down := Put(s.down, sent))
      else s
    case Serves(we) =>
      if s.worker.serving then
        var (w, sent) := WorkerStep(s.worker, we);
        s.(worker := w, down := Put(s.down, sent))
      else s
  }

  function Run(s: System, run: seq<Event>): System
    decreases |run|
  {
    if run == [] then s else Run(Step(s, run[0]), run[1..])
  }

  lemma {:induction false} RunAppend(s: System, a: seq<Event>, b: seq<Event>)
    ensures Run(s, a + b) == Run(Run(s, a), b)
    decreases |a|
  {
    if a == [] {
      assert a + b == b;
    } else {
      assert (a + b)[1..] == a[1..] + b;
      RunAppend(Step(s, a[0]), a[1..], b);
    }
  }

  /** The colour a client starts with is its own; the record's id and colour are the server's choice. */
  predicate Initial(s: System) {
    && s.client.id == None && !s.client.initReq && !s.client.initDone && !s.client.stopped
    && s.client.sender == AtLoop && s.client.draft == BLANK && s.client.receiver == Waiting
    && s.up == s.down == Channel([], [])
    && s.worker.record.state == INITIAL_STATE && s.worker.record.name == "" && s.worker.serving
    && s.worker.pushed == [] && s.worker.path == [INITIAL_STATE]
  }

  // ---------------------------------------------------------------- counting frames

  function CountOf(a: Action, fs: seq<Frame>): nat {
    if fs == [] then 0 else (if fs[0].action == a then 1 else 0) + CountOf(a, fs[1..])
  }

  lemma {:induction false} CountAppend(a: Action, fs: seq<Frame>, gs: seq<Frame>)
    ensures CountOf(a, fs + gs) == CountOf(a, fs) + CountOf(a, gs)
  {
    if fs == [] {
      assert fs + gs == gs;
    } else {
      assert (fs + gs)[1..] == fs[1..] + gs;
      CountAppend(a, fs[1..], gs);
    }
  }

  lemma {:induction false} CountZero(a: Action, fs: seq<Frame>)
    ensures CountOf(a, fs) == 0 <==> forall k | 0 <= k < |fs| :: fs[k].action != a
  {
    if fs != [] {
      CountZero(a, fs[1..]);
      assert forall k | 0 < k < |fs| :: fs[k] == fs[1..][k - 1];
    }
  }

  // ---------------------------------------------------------------- the client's invariant

  /** A confirmation carries the id and colour of the record. */
  predicate Confirms(f: Frame, id: int, color: int) { f.action == INIT_REQ ==> f.id == Some(id) && f.color == Some(color) }

  /** How far the client has got with what it was told. */
  predicate ClientInv(c: Client, id: int, color: int) {
    && c.draft.action != INIT_DONE && (c.id == None || c.id == Some(id))
    && (c.initDone ==> c.id == Some(id) && c.color == color)
    && match c.receiver
       case Waiting => true
       case Got(f) => Confirms(f, id, color)
       case SetColor(f) => !c.initDone && f.action == INIT_REQ && Confirms(f, id, color)
       case SetId(f) => !c.initDone && f.action == INIT_REQ && Confirms(f, id, color) && c.color == color
       case SetDone => !c.initDone && c.id == Some(id) && c.color == color
       case Reply => c.initDone
  }

  /** The receiving thread holds the confirmation, not acted upon in full yet. */
  predicate Holding(c: Client) {
    (c.receiver.Got? && c.receiver.frame.action == INIT_REQ) || c.receiver.SetColor? || c.receiver.SetId? || c.receiver.SetDone?
  }

  lemma SenderKeeps(c: Client, e: SenderEvent, id: int, color: int)
    requires ClientInv(c, id, color)
    ensures var (c', sent) := SenderStep(c, e);
            && ClientInv(c', id, color) && CountOf(INIT_DONE, sent) == 0
            && c'.initDone == c.initDone && c'.receiver == c.receiver
  {
  }

  lemma ReceiverKeeps(c: Client, id: int, color: int)
    requires ClientInv(c, id, color)
    ensures var (c', sent) := ReceiverStep(c);
            && ClientInv(c', id, color)
            && CountOf(INIT_DONE, sent) == (if c.receiver.Reply? then 1 else 0)
            && (c'.initDone <==> c.initDone || c.receiver.SetDone?)
            && (Holding(c') || c'.initDone ==> Holding(c) || c.initDone)
            && (Holding(c') && c'.initDone ==> Holding(c) && c.initDone)
  {
  }

  // ---------------------------------------------------------------- the worker's invariant

  /** 0, 1, 2, 3 as far as it got, and then possibly -1. */
  predicate GoodPath(path: seq<int>) {
    && path != []
    && (forall k | 0 <= k < |path| - 1 :: path[k] == k)
    && (|| path[|path| - 1] == |path| - 1 <= INITIALIZED
        || (path[|path| - 1] == DISCONNECT_STATE && 2 <= |path| <= INITIALIZED + 2))
  }

  predicate Reached(path: seq<int>, state: nat) { |path| > state && path[state] == state }

  /** INIT_DONE once and then only UNICAST_REPEATED. */
  predicate Session(out: seq<Frame>) {
    out != [] ==> out[0].action == INIT_DONE && forall k | 1 <= k < |out| :: out[k].action == UNICAST_REPEATED
  }

  predicate PathRight(w: Worker) { GoodPath(w.path) && w.path[|w.path| - 1] == w.record.state }

  predicate PushedRight(w: Worker) {
    if w.serving then Session(w.pushed) && (w.pushed != [] <==> Reached(w.path, INITIALIZED))
    else
      && w.record.state == DISCONNECT_STATE && w.pushed != []
      && w.pushed[|w.pushed| - 1] == Farewell(w.record) && Session(w.pushed[..|w.pushed| - 1])
  }

  predicate WorkerInv(w: Worker) { PathRight(w) && PushedRight(w) }

  /** What the worker's steps may send. */
  predicate SentRight(w: Worker, w': Worker, sent: seq<Frame>) {
    && w'.record.id == w.record.id && w'.record.colorId == w.record.colorId
    && (forall k | 0 <= k < |sent| :: Confirms(sent[k], w.record.id, w.record.colorId))
    && CountOf(INIT_REQ, sent) + (if Reached(w.path, SENT_INIT_CONFIRMATION) then 1 else 0)
       == (if Reached(w'.path, SENT_INIT_CONFIRMATION) then 1 else 0)
  }

  lemma MovedKeeps(w: Worker, r: Record)
    requires PathRight(w)
    requires r.state == w.record.state || r.state == DISCONNECT_STATE
          || (r.state == w.record.state + 1 && 0 <= w.record.state < INITIALIZED)
    ensures PathRight(Moved(w, r))
    ensures forall k: nat :: Reached(Moved(w, r).path, k) <==> Reached(w.path, k) || (k == r.state == w.record.state + 1)
  {
    var n := |w.path|;
    if r.state != w.record.state && r.state != DISCONNECT_STATE {
      assert w.record.state == n - 1;
    }
  }

  lemma TakeKeeps(w: Worker, f: Frame)
    requires WorkerInv(w) && w.serving
    ensures var (w', sent) := Take(w, f);
            && WorkerInv(w') && w'.serving && SentRight(w, w', sent)
            && (w'.record.state == INITIALIZED ==> w.record.state == INITIALIZED || f.action == INIT_DONE)
  {
    var (r, sent, pushed) := ServerInput(w.record, f);
    MovedKeeps(w, r);
    TakePushed(w, f);
    assert SentRight(w, Take(w, f).0, sent);
  }

  lemma TakePushed(w: Worker, f: Frame)
    requires WorkerInv(w) && w.serving && PathRight(Take(w, f).0)
    requires var r := ServerInput(w.record, f).0;
             forall k: nat :: Reached(Moved(w, r).path, k) <==> Reached(w.path, k) || (k == r.state == w.record.state + 1)
    ensures PushedRight(Take(w, f).0)
  {
    var (r, sent, pushed) := ServerInput(w.record, f);
    if pushed == [] {
      assert w.pushed + pushed == w.pushed;
    } else if w.record.state == INITIALIZED {
      assert Reached(w.path, INITIALIZED);
    } else {
      assert !Reached(w.path, INITIALIZED) && w.pushed + pushed == pushed;
    }
  }

  lemma EndOfFileKeeps(w: Worker)
    requires WorkerInv(w) && w.serving
    ensures var (w', sent) := WorkerStep(w, EndOfFile); WorkerInv(w') && w'.serving && SentRight(w, w', sent)
  {
    MovedKeeps(w, w.record.(state := DISCONNECT_STATE));
  }

  lemma OutputKeeps(w: Worker)
    requires WorkerInv(w) && w.serving
    ensures var (w', sent) := WorkerStep(w, Output); WorkerInv(w') && w'.serving && SentRight(w, w', sent)
  {
    var (r, sent) := ServerOutput(w.record);
    MovedKeeps(w, r);
    if sent != [] { assert |w.path| == 2; }
  }

  lemma RetireKeeps(w: Worker)
    requires WorkerInv(w) && w.serving
    ensures var (w', sent) := WorkerStep(w, Retire); WorkerInv(w') && SentRight(w, w', sent)
  {
    if w.record.state == DISCONNECT_STATE { assert (w.pushed + [Farewell(w.record)])[..|w.pushed|] == w.pushed; }
  }

  lemma WorkerKeeps(w: Worker, e: WorkerEvent)
    requires WorkerInv(w) && w.serving
    ensures var (w', sent) := WorkerStep(w, e);
            && WorkerInv(w') && SentRight(w, w', sent)
            && (w'.record.state == INITIALIZED ==> w.record.state == INITIALIZED)
  {
    match e
    case EndOfFile => EndOfFileKeeps(w);
    case Output => OutputKeeps(w);
    case Deliver(_) =>
    case Retire => RetireKeeps(w);
  }

  // ---------------------------------------------------------------- the invariant of the product

  /** Frames under way agree with both ends; INIT_DONE is sent when the client is done, the confirmation when
      the record passes its second state, and a confirmation is in one place at a time. */
  predicate ChannelsRight(s: System) {
    && (forall k | 0 <= k < |s.down.frames| :: Confirms(s.down.frames[k], s.worker.record.id, s.worker.record.colorId))
    && (CountOf(INIT_DONE, s.up.frames) > 0 ==> s.client.initDone)
    && CountOf(INIT_DONE, s.up.sent) == (if s.client.initDone && !s.client.receiver.Reply? then 1 else 0)
    && CountOf(INIT_REQ, s.down.sent) == (if Reached(s.worker.path, SENT_INIT_CONFIRMATION) then 1 else 0)
    && CountOf(INIT_REQ, s.down.frames) + (if Holding(s.client) then 1 else 0) + (if s.client.initDone then 1 else 0)
       <= CountOf(INIT_REQ, s.down.sent)
  }

  predicate Inv(s: System) {
    && ClientInv(s.client, s.worker.record.id, s.worker.record.colorId)
    && WorkerInv(s.worker)
    && ChannelsRight(s)
    && (s.worker.record.state == INITIALIZED ==> s.client.initDone)
  }

  lemma SendsKeeps(s: System, e: SenderEvent)
    requires Inv(s)
    ensures Inv(Step(s, Sends(e)))
  {
    var sent := SenderStep(s.client, e).1;
    SenderKeeps(s.client, e, s.worker.record.id, s.worker.record.colorId);
    CountAppend(INIT_DONE, s.up.frames, sent);
    CountAppend(INIT_DONE, s.up.sent, sent);
  }

  lemma ReceiveKeeps(s: System)
    requires Inv(s)
    ensures Inv(Step(s, Receive))
  {
  }

  lemma AdvanceKeeps(s: System)
    requires Inv(s)
    ensures Inv(Step(s, Advance))
  {
    var sent := ReceiverStep(s.client).1;
    ReceiverKeeps(s.client, s.worker.record.id, s.worker.record.colorId);
    CountAppend(INIT_DONE, s.up.frames, sent);
    CountAppend(INIT_DONE, s.up.sent, sent);
  }

  lemma InputKeeps(s: System)
    requires Inv(s)
    ensures Inv(Step(s, Input))
  {
    if s.worker.serving && s.up.frames != [] {
      var sent := Take(s.worker, s.up.frames[0]).1;
      TakeKeeps(s.worker, s.up.frames[0]);
      CountAppend(INIT_REQ, s.down.frames, sent);
      CountAppend(INIT_REQ, s.down.sent, sent);
    }
  }

  lemma ServesKeeps(s: System, e: WorkerEvent)
    requires Inv(s)
    ensures Inv(Step(s, Serves(e)))
  {
    if s.worker.serving {
      var sent := WorkerStep(s.worker, e).1;
      WorkerKeeps(s.worker, e);
      CountAppend(INIT_REQ, s.down.frames, sent);
      CountAppend(INIT_REQ, s.down.sent, sent);
    }
  }

  lemma StepKeeps(s: System, e: Event)
    requires Inv(s)
    ensures Inv(Step(s, e))
  {
    match e
    case Sends(se) => SendsKeeps(s, se);
    case Receive => ReceiveKeeps(s);
    case Advance => AdvanceKeeps(s);
    case Input => InputKeeps(s);
    case Serves(we) => ServesKeeps(s, we);
  }

  lemma {:induction false} RunKeeps(s: System, run: seq<Event>)
    requires Inv(s)
    ensures Inv(Run(s, run))
    decreases |run|
  {
    if run != [] {
      StepKeeps(s, run[0]);
      RunKeeps(Step(s, run[0]), run[1..]);
    }
  }

  // ---------------------------------------------------------------- what the handshake guarantees

  /** In every interleaving: a record that has reached the last state belongs to a client that knows it is
      initialised and holds the record's id and colour; the record only ever goes 0, 1, 2, 3 or to -1, where
      it stays; and the confirmation and INIT_DONE are each sent at most once. */
  lemma HandshakeIsSafe(s: System, run: seq<Event>)
    requires Initial(s)
    ensures var r := Run(s, run);
            && (r.worker.record.state == INITIALIZED ==>
                  r.client.initDone && r.client.id == Some(r.worker.record.id) && r.client.color == r.worker.record.colorId)
            && GoodPath(r.worker.path) && r.worker.path[|r.worker.path| - 1] == r.worker.record.state
            && CountOf(INIT_REQ, r.down.sent) <= 1
            && CountOf(INIT_DONE, r.up.sent) <= 1
  {
    RunKeeps(s, run);
  }

  /** What a worker pushes for one connection: nothing, or INIT_DONE and then chat messages; and after that at
      most one CL_DISCONNECTED, which ends it. */
  predicate OutputLanguage(out: seq<Frame>) {
    || Session(out)
    || (out != [] && out[|out| - 1].action == CL_DISCONNECTED && Session(out[..|out| - 1]))
  }

  lemma WorkerSpeaksTheLanguage(s: System, run: seq<Event>)
    requires Initial(s)
    ensures OutputLanguage(Run(s, run).worker.pushed)
  {
    RunKeeps(s, run);
  }

  // ---------------------------------------------------------------- the handshake may never finish

  /** The confirmation has been sent, and it is nowhere any more. */
  predicate Stalled(s: System) {
    && (s.worker.record.state == SENT_INIT_CONFIRMATION || s.worker.record.state == DISCONNECT_STATE)
    && !s.client.initDone && !Holding(s.client) && !s.client.receiver.Reply? && s.client.draft.action != INIT_DONE
    && (forall k | 0 <= k < |s.down.frames| :: s.down.frames[k].action != INIT_REQ)
    && (forall k | 0 <= k < |s.up.frames| :: s.up.frames[k].action != INIT_DONE)
  }

  lemma StalledStep(s: System, e: Event)
    requires Stalled(s)
    ensures Stalled(Step(s, e))
  {
  }

  lemma {:induction false} StalledForEver(s: System, run: seq<Event>)
    requires Stalled(s)
    ensures Stalled(Run(s, run))
    decreases |run|
  {
    if run != [] {
      StalledStep(s, run[0]);
      StalledForEver(Step(s, run[0]), run[1..]);
    }
  }

  predicate Finished(s: System) { s.worker.record.state == INITIALIZED && s.client.initDone }

  ghost predicate CanFinish(s: System) { exists run :: Finished(Run(s, run)) }

  predicate NoGoodbye(fs: seq<Frame>) { forall k | 0 <= k < |fs| :: fs[k].action != CL_DISCONNECTED }

  function Repeat(e: Event, n: nat): seq<Event> { seq(n, _ => e) }

  /** The worker reads up to the client's INIT_DONE. */
  lemma {:induction false} ReadToTheEnd(s: System)
    requires s.worker.serving && s.client.initDone && NoGoodbye(s.up.frames)
    requires s.worker.record.state == SENT_INIT_CONFIRMATION
    requires exists k :: 0 <= k < |s.up.frames| && s.up.frames[k].action == INIT_DONE
    ensures CanFinish(s)
    decreases |s.up.frames|
  {
    var next := Step(s, Input);
    if s.up.frames[0].action == INIT_DONE {
      assert Run(next, []) == next;
      assert Finished(Run(s, [Input])) by { assert [Input][1..] == []; }
    } else {
      assert next.up.frames == s.up.frames[1..];
      var k :| 0 <= k < |s.up.frames| && s.up.frames[k].action == INIT_DONE;
      assert next.up.frames[k - 1].action == INIT_DONE;
      ReadToTheEnd(next);
      FinishLater(s, Input);
    }
  }

  lemma FinishLater(s: System, e: Event)
    requires CanFinish(Step(s, e))
    ensures CanFinish(s)
  {
    var run :| Finished(Run(Step(s, e), run));
    assert ([e] + run)[1..] == run;
    assert Finished(Run(s, [e] + run));
  }

  /** The receiving thread finalises. */
  lemma Finalise(s: System, f: Frame)
    requires s.worker.serving && NoGoodbye(s.up.frames)
    requires s.worker.record.state == SENT_INIT_CONFIRMATION
    requires s.client.receiver == SetColor(f)
    ensures CanFinish(s)
  {
    var s1 := Step(s, Advance);
    var s2 := Step(s1, Advance);
    var s3 := Step(s2, Advance);
    var s4 := Step(s3, Advance);
    assert s1.up.frames == s2.up.frames == s3.up.frames == s.up.frames;
    assert s4.up.frames == s.up.frames + [BLANK.(action := INIT_DONE)];
    assert s4.up.frames[|s.up.frames|].action == INIT_DONE;
    ReadToTheEnd(s4);
    FinishLater(s3, Advance);
    FinishLater(s2, Advance);
    FinishLater(s1, Advance);
    FinishLater(s, Advance);
  }

  /** The client looks at the confirmation exactly once. If `init_req` is set by then the handshake can still
      finish; if it is not, it never will. */
  lemma ConfirmationDecides(s: System, run: seq<Event>)
    requires Initial(s)
    requires var r := Run(s, run);
             && r.worker.serving && r.worker.record.state == SENT_INIT_CONFIRMATION && NoGoodbye(r.up.frames)
             && r.client.receiver.Got? && r.client.receiver.frame.action == INIT_REQ
    ensures CanFinish(Step(Run(s, run), Advance)) <==> Run(s, run).client.initReq
  {
    var r := Run(s, run);
    var next := Step(r, Advance);
    RunKeeps(s, run);
    CountZero(INIT_REQ, r.down.frames);
    CountZero(INIT_DONE, r.up.frames);
    assert next.up.frames == r.up.frames;
    if r.client.initReq {
      Finalise(next, r.client.receiver.frame);
    } else {
      assert Stalled(next);
      forall more ensures !Finished(Run(next, more)) { StalledForEver(next, more); }
    }
  }

  /** The interleaving in which it is not: request sent, server answers, client reads the answer, flag set. */
  const RACE: seq<Event> := [Sends(SendRequest), Input, Serves(Output), Receive, Advance, Sends(RaiseFlag)]

  lemma TheRaceStalls(s: System)
    requires Initial(s) && s.client.name != ""
    ensures Stalled(Run(s, RACE)) && Run(s, RACE).client.initReq && !CanFinish(Run(s, RACE))
  {
    var s1 := Step(s, Sends(SendRequest));
    var s2 := Step(s1, Input);
    var s3 := Step(s2, Serves(Output));
    assert s1.up.frames == [s1.client.draft];
    assert s2.worker.record.state == REQUESTED_INIT && s2.up.frames == [] && s2.down.frames == [];
    assert s3.down.frames == [Confirmation(s2.worker.record)];
    RaceRest(s3, Confirmation(s2.worker.record));
    RunThree(s, RACE[0], RACE[1], RACE[2]);
    RunAppend(s, [RACE[0], RACE[1], RACE[2]], [RACE[3], RACE[4], RACE[5]]);
    assert RACE == [RACE[0], RACE[1], RACE[2]] + [RACE[3], RACE[4], RACE[5]];
    forall more ensures !Finished(Run(Run(s, RACE), more)) { StalledForEver(Run(s, RACE), more); }
  }

  lemma RaceRest(s: System, f: Frame)
    requires s.down.frames == [f] && s.client.receiver.Waiting? && s.client.sender.Requested?
    requires !s.client.initReq && !s.client.initDone && !s.client.stopped && s.client.draft.action != INIT_DONE
    requires s.worker.record.state == SENT_INIT_CONFIRMATION && s.up.frames == []
    ensures Stalled(Run(s, [Receive, Advance, Sends(RaiseFlag)]))
    ensures Run(s, [Receive, Advance, Sends(RaiseFlag)]).client.initReq
  {
    RunThree(s, Receive, Advance, Sends(RaiseFlag));
  }

  lemma RunThree(s: System, a: Event, b: Event, c: Event)
    ensures Run(s, [a, b, c]) == Step(Step(Step(s, a), b), c)
  {
    assert [a, b, c][1..] == [b, c] && [b, c][1..] == [c] && [c][1..] == [];
    assert Run(Step(Step(s, a), b), [c]) == Step(Step(Step(s, a), b), c);
  }
}
