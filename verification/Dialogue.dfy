/** What is said, word for word: every frame a client sends, every frame its worker sends back, and everything the
    worker pushes to the listener, in every interleaving of the handshake machine. */
module Dialogue {
  import opened Wrappers
  import opened Resources
  import opened ClientTable
  import opened Handshake

  // ---------------------------------------------------------------- chat frames

  function ChatOf(fs: seq<Frame>): seq<Frame> {
    if fs == [] then [] else (if fs[0].action == UNICAST_REPEATED then [fs[0]] else []) + ChatOf(fs[1..])
  }

  lemma {:induction false} ChatAppend(fs: seq<Frame>, gs: seq<Frame>)
    ensures ChatOf(fs + gs) == ChatOf(fs) + ChatOf(gs)
  {
    if fs == [] {
      assert fs + gs == gs;
    } else {
      assert (fs + gs)[1..] == fs[1..] + gs;
      ChatAppend(fs[1..], gs);
      Associative(if fs[0].action == UNICAST_REPEATED then [fs[0]] else [], ChatOf(fs[1..]), ChatOf(gs));
    }
  }

  lemma Associative<T>(a: seq<T>, b: seq<T>, c: seq<T>)
    ensures a + b + c == a + (b + c)
  {
  }

  lemma ChatOfOne(f: Frame)
    ensures ChatOf([f]) == if f.action == UNICAST_REPEATED then [f] else []
  {
    assert [f][1..] == [];
  }

  /** What comes after the first INIT_DONE. */
  function AfterDone(fs: seq<Frame>): seq<Frame> {
    if fs == [] then [] else if fs[0].action == INIT_DONE then fs[1..] else AfterDone(fs[1..])
  }

  lemma {:induction false} AfterDoneAppend(fs: seq<Frame>, f: Frame)
    ensures AfterDone(fs + [f]) == if CountOf(INIT_DONE, fs) == 0 then [] else AfterDone(fs) + [f]
  {
    if fs == [] {
      assert fs + [f] == [f] && [f][1..] == [];
    } else {
      assert (fs + [f])[1..] == fs[1..] + [f];
      if fs[0].action != INIT_DONE { AfterDoneAppend(fs[1..], f); }
    }
  }

  lemma {:induction false} AfterDoneIsPart(fs: seq<Frame>) returns (before: seq<Frame>)
    ensures fs == before + AfterDone(fs)
  {
    if fs == [] {
      before := [];
    } else if fs[0].action == INIT_DONE {
      before := [fs[0]];
    } else {
      before := AfterDoneIsPart(fs[1..]);
      before := [fs[0]] + before;
    }
  }

  // ---------------------------------------------------------------- the client's side

  /** A line taken from the user, with the id and the colour the client had then. */
  datatype Line = Line(text: string, id: Option<int>, color: int)

  /** The sending thread takes a line of text: it is at its loop with `init_req` set, the client has not quit, and
      the line is neither empty nor the quit command. */
  predicate TakesLine(c: Client, e: Event) {
    && e.Sends? && e.s.Type? && e.s.line != "" && e.s.line != QUIT_MSG
    && c.sender.AtLoop? && c.initReq && !c.stopped
  }

  /** What one event adds to the lines. */
  function Heard(c: Client, e: Event): seq<Line> { if TakesLine(c, e) then [Line(e.s.line, c.id, c.color)] else [] }

  /** The lines taken in a run. */
  function Spoken(s: System, run: seq<Event>): seq<Line>
    decreases |run|
  {
    if run == [] then []
    else Heard(s.client, run[0]) + Spoken(Step(s, run[0]), run[1..])
  }

  /** A line as a frame. */
  function AsFrame(name: string, l: Line): Frame { Frame(UNICAST_REPEATED, l.id, name, Some(l.color), l.text) }

  function AsFrames(name: string, ls: seq<Line>): (fs: seq<Frame>)
    ensures |fs| == |ls| && forall k | 0 <= k < |ls| :: fs[k] == AsFrame(name, ls[k])
  {
    seq(|ls|, k requires 0 <= k < |ls| => AsFrame(name, ls[k]))
  }

  /** The composed chat line the sending thread holds, if it holds one. */
  function Held(c: Client): seq<Frame> { if c.sender.Composed? then ChatOf([c.draft]) else [] }

  /** All chat lines composed so far: those sent and the one held. */
  function Composed(s: System): seq<Frame> { ChatOf(s.up.sent) + Held(s.client) }

  /** A frame of the client's own making, by action. */
  predicate Own(f: Frame, name: string) {
    match f.action
    case INIT_DONE => f == BLANK.(action := INIT_DONE)
    case INIT_REQ | UNICAST_REPEATED | CL_DISCONNECTED => f.name == name
    case _ => false
  }

  predicate AllOwn(fs: seq<Frame>, name: string) { forall k | 0 <= k < |fs| :: Own(fs[k], name) }

  predicate HoldsOwn(c: Client) {
    c.sender.Composed? ==> (c.draft.action == UNICAST_REPEATED || c.draft.action == CL_DISCONNECTED) && Own(c.draft, c.name)
  }

  /** Everything sent is the client's own, and so is what it holds. */
  predicate ClientSays(s: System) { AllOwn(s.up.sent, s.client.name) && HoldsOwn(s.client) }

  ghost predicate SaysRightly(c: Client, e: SenderEvent) {
    var (c', sent) := SenderStep(c, e);
    && HoldsOwn(c') && c'.name == c.name && AllOwn(sent, c.name)
    && ChatOf(sent) + Held(c') == Held(c) + AsFrames(c.name, Heard(c, Sends(e)))
  }

  lemma LineIsComposed(c: Client, line: string)
    requires HoldsOwn(c)
    ensures SaysRightly(c, Type(line))
  {
    var c' := SenderStep(c, Type(line)).0;
    ChatOfOne(c'.draft);
  }

  lemma DraftIsSent(c: Client)
    requires HoldsOwn(c)
    ensures SaysRightly(c, SendDraft)
  {
    if c.sender.Composed? { assert Held(c) + [] == Held(c); }
  }

  lemma SenderSays(c: Client, e: SenderEvent)
    requires HoldsOwn(c)
    ensures SaysRightly(c, e)
  {
    match e
    case Type(line) => LineIsComposed(c, line);
    case SendDraft => DraftIsSent(c);
    case SendRequest => ChatOfOne(SenderStep(c, e).0.draft);
    case RaiseFlag =>
  }

  lemma ReceiverSays(c: Client)
    ensures var (c', sent) := ReceiverStep(c);
            && c'.name == c.name && c'.sender == c.sender && c'.draft == c.draft
            && AllOwn(sent, c.name) && ChatOf(sent) == []
  {
    ChatOfOne(BLANK.(action := INIT_DONE));
  }

  /** A step that puts `sent` into the channel and takes `ls` from the user. */
  lemma PutSays(s: System, s': System, sent: seq<Frame>, ls: seq<Line>)
    requires ClientSays(s) && s'.up.sent == s.up.sent + sent
    requires HoldsOwn(s'.client) && s'.client.name == s.client.name && AllOwn(sent, s.client.name)
    requires ChatOf(sent) + Held(s'.client) == Held(s.client) + AsFrames(s.client.name, ls)
    ensures ClientSays(s') && Composed(s') == Composed(s) + AsFrames(s.client.name, ls)
  {
    ChatAppend(s.up.sent, sent);
    assert Composed(s') == ChatOf(s.up.sent) + (ChatOf(sent) + Held(s'.client));
  }

  lemma StepSays(s: System, e: Event)
    requires ClientSays(s)
    ensures var s' := Step(s, e);
            && ClientSays(s') && s'.client.name == s.client.name
            && Composed(s') == Composed(s) + AsFrames(s.client.name, Heard(s.client, e))
  {
    match e
    case Sends(se) =>
      SenderSays(s.client, se);
      PutSays(s, Step(s, e), SenderStep(s.client, se).1, Heard(s.client, e));
    case Advance =>
      ReceiverSays(s.client);
      PutSays(s, Step(s, e), ReceiverStep(s.client).1, []);
    case _ =>
      PutSays(s, Step(s, e), [], []);
  }

  lemma AsFramesAppend(name: string, ls: seq<Line>, more: seq<Line>)
    ensures AsFrames(name, ls + more) == AsFrames(name, ls) + AsFrames(name, more)
  {
  }

  lemma {:induction false} RunSays(s: System, run: seq<Event>)
    requires ClientSays(s)
    ensures var r := Run(s, run);
            && ClientSays(r) && r.client.name == s.client.name
            && Composed(r) == Composed(s) + AsFrames(s.client.name, Spoken(s, run))
    decreases |run|
  {
    if run != [] {
      var next, name := Step(s, run[0]), s.client.name;
      StepSays(s, run[0]);
      RunSays(next, run[1..]);
      AsFramesAppend(name, Heard(s.client, run[0]), Spoken(next, run[1..]));
      Associative(Composed(s), AsFrames(name, Heard(s.client, run[0])), AsFrames(name, Spoken(next, run[1..])));
    }
  }

  lemma RecordKeepsId(s: System, e: Event)
    ensures var r, r' := s.worker.record, Step(s, e).worker.record; r'.id == r.id && r'.colorId == r.colorId
  {
  }

  /** The id a client has when it takes a line is none yet or the one its record has. */
  lemma {:induction false} SpokenIds(s: System, run: seq<Event>)
    requires Inv(s)
    ensures Run(s, run).worker.record.id == s.worker.record.id
    ensures forall k | 0 <= k < |Spoken(s, run)| ::
              Spoken(s, run)[k].id == None || Spoken(s, run)[k].id == Some(s.worker.record.id)
    decreases |run|
  {
    if run != [] {
      StepKeeps(s, run[0]);
      RecordKeepsId(s, run[0]);
      SpokenIds(Step(s, run[0]), run[1..]);
    }
  }

  lemma NothingSaidYet(s: System)
    requires Initial(s)
    ensures ClientSays(s) && Composed(s) == []
  {
  }

  /** In every run the client's chat frames are the lines taken from the user, in order and once each, with the text,
      the client's name, and its id and colour as they were; the last one may still be on its way out. All other
      frames it sends are its INIT_REQ and CL_DISCONNECTED, with its name, and the blank INIT_DONE. */
  lemma ClientSaysExactly(s: System, run: seq<Event>)
    requires Initial(s)
    ensures var r, lines := Run(s, run), Spoken(s, run);
            && ChatOf(r.up.sent) + Held(r.client) == AsFrames(s.client.name, lines)
            && |Held(r.client)| <= 1
            && AllOwn(r.up.sent, s.client.name)
            && (forall k | 0 <= k < |lines| :: lines[k].id == None || lines[k].id == Some(r.worker.record.id))
  {
    NothingSaidYet(s);
    RunSays(s, run);
    assert [] + AsFrames(s.client.name, Spoken(s, run)) == AsFrames(s.client.name, Spoken(s, run));
    SpokenIds(s, run);
    ChatOfOne(Run(s, run).client.draft);
  }

  // ---------------------------------------------------------------- the worker's side

  /** The worker's own frames to a client called `name`: the confirmation once it has passed its second state, and the
      greeting once it has reached the last. */
  function Greetings(w: Worker, name: string): seq<Frame> {
    var id, color := Some(w.record.id), Some(w.record.colorId);
    (if Reached(w.path, SENT_INIT_CONFIRMATION) then [Frame(INIT_REQ, id, name, color, "")] else [])
    + (if Reached(w.path, INITIALIZED)
       then [Frame(UNICAST_REPEATED, id, "SERVER", color, "Hello " + name + ", now you can chat!")] else [])
  }

  /** What the worker has pushed: the announcement once it has reached the last state, chat, and the farewell once it
      has let the client go. */
  predicate PushesExactly(w: Worker, name: string) {
    var id, color := Some(w.record.id), Some(w.record.colorId);
    var left := if Reached(w.path, REQUESTED_INIT) then name else "";
    w.pushed ==
      (if Reached(w.path, INITIALIZED) then [Frame(INIT_DONE, id, "SERVER", color, name + " Has Just Connected!")] else [])
      + ChatOf(w.pushed)
      + (if w.serving then [] else [Frame(CL_DISCONNECTED, id, left, color, "")])
  }

  predicate NameRight(w: Worker, name: string) {
    w.record.name == if Reached(w.path, REQUESTED_INIT) then name else ""
  }

  predicate WorkerSays(w: Worker, name: string) { WorkerInv(w) && NameRight(w, name) && PushesExactly(w, name) }

  lemma StateTells(w: Worker)
    requires PathRight(w) && w.record.state >= 0
    ensures forall k: nat :: Reached(w.path, k) <==> k <= w.record.state
  {
  }

  /** A step that pushes nothing; only the request gives the record a name. */
  lemma QuietSays(w: Worker, w': Worker, name: string)
    requires WorkerSays(w, name) && WorkerInv(w') && w'.pushed == w.pushed && w.serving && w'.serving
    requires w'.record.id == w.record.id && w'.record.colorId == w.record.colorId
    requires Reached(w'.path, INITIALIZED) <==> Reached(w.path, INITIALIZED)
    requires w'.record.name == if Reached(w'.path, REQUESTED_INIT) then name else ""
    ensures WorkerSays(w', name)
  {
  }

  ghost predicate TakesRightly(w: Worker, f: Frame, name: string) {
    var (w', sent) := Take(w, f);
    && WorkerSays(w', name) && w'.serving
    && w'.record.id == w.record.id && w'.record.colorId == w.record.colorId
    && Greetings(w', name) == Greetings(w, name) + sent
    && ChatOf(w'.pushed) == ChatOf(w.pushed)
         + if w.record.state == INITIALIZED && f.action == UNICAST_REPEATED then [f] else []
  }

  lemma DoneIsTaken(w: Worker, f: Frame, name: string)
    requires WorkerSays(w, name) && w.serving && w.record.state == SENT_INIT_CONFIRMATION && f.action == INIT_DONE
    ensures TakesRightly(w, f, name)
  {
    TakeKeeps(w, f);
    var (w', sent) := Take(w, f);
    StateTells(w);
    StateTells(w');
    ChatOfOne(w'.pushed[0]);
    assert w.pushed == [] && |w'.pushed| == 1;
  }

  lemma ChatIsTaken(w: Worker, f: Frame, name: string)
    requires WorkerSays(w, name) && w.serving && w.record.state == INITIALIZED && f.action == UNICAST_REPEATED
    ensures TakesRightly(w, f, name)
  {
    TakeKeeps(w, f);
    var w' := Take(w, f).0;
    assert w' == w.(pushed := w.pushed + [f]);
    ChatAppend(w.pushed, [f]);
    ChatOfOne(f);
  }

  lemma Quiet(w: Worker, w': Worker, name: string)
    requires w'.pushed == w.pushed && w'.record.id == w.record.id && w'.record.colorId == w.record.colorId
    requires Reached(w'.path, SENT_INIT_CONFIRMATION) <==> Reached(w.path, SENT_INIT_CONFIRMATION)
    requires Reached(w'.path, INITIALIZED) <==> Reached(w.path, INITIALIZED)
    ensures ChatOf(w'.pushed) == ChatOf(w.pushed) && Greetings(w', name) == Greetings(w, name) + []
  {
  }

  lemma OtherIsTaken(w: Worker, f: Frame, name: string)
    requires WorkerSays(w, name) && w.serving && (f.action == INIT_REQ ==> f.name == name)
    requires w.record.state == SENT_INIT_CONFIRMATION ==> f.action != INIT_DONE
    requires w.record.state == INITIALIZED ==> f.action != UNICAST_REPEATED
    ensures TakesRightly(w, f, name)
  {
    TakeKeeps(w, f);
    var w' := Take(w, f).0;
    OtherMoves(w, f, name);
    QuietSays(w, w', name);
    Quiet(w, w', name);
    assert ChatOf(w.pushed) + [] == ChatOf(w.pushed);
  }

  /** Such a frame only moves the record, if anything. */
  lemma OtherMoves(w: Worker, f: Frame, name: string)
    requires PathRight(w) && NameRight(w, name) && (f.action == INIT_REQ ==> f.name == name)
    requires w.record.state == SENT_INIT_CONFIRMATION ==> f.action != INIT_DONE
    requires w.record.state == INITIALIZED ==> f.action != UNICAST_REPEATED
    ensures var (w', sent) := Take(w, f);
            && sent == [] && w'.pushed == w.pushed && w'.serving == w.serving
            && w'.record.id == w.record.id && w'.record.colorId == w.record.colorId && NameRight(w', name)
            && (Reached(w'.path, SENT_INIT_CONFIRMATION) <==> Reached(w.path, SENT_INIT_CONFIRMATION))
            && (Reached(w'.path, INITIALIZED) <==> Reached(w.path, INITIALIZED))
  {
    var (r, _, pushed) := ServerInput(w.record, f);
    MovedKeeps(w, r);
    assert w.pushed + [] == w.pushed;
  }

  lemma TakeSays(w: Worker, f: Frame, name: string)
    requires WorkerSays(w, name) && w.serving && (f.action == INIT_REQ ==> f.name == name)
    ensures TakesRightly(w, f, name)
  {
    if w.record.state == SENT_INIT_CONFIRMATION && f.action == INIT_DONE {
      DoneIsTaken(w, f, name);
    } else if w.record.state == INITIALIZED && f.action == UNICAST_REPEATED {
      ChatIsTaken(w, f, name);
    } else {
      OtherIsTaken(w, f, name);
    }
  }

  /** A message from the send queue goes out. */
  predicate PassesOn(w: Worker, e: WorkerEvent) {
    && e.Deliver? && w.record.state == INITIALIZED
    && (e.broadcast.action == UNICAST_REPEATED || e.broadcast.action == SV_DISCONNECTED)
  }

  ghost predicate ServesRightly(w: Worker, e: WorkerEvent, name: string) {
    var (w', sent) := WorkerStep(w, e);
    && WorkerSays(w', name)
    && w'.record.id == w.record.id && w'.record.colorId == w.record.colorId
    && ChatOf(w'.pushed) == ChatOf(w.pushed)
    && if PassesOn(w, e) then w' == w && sent == [e.broadcast] else Greetings(w', name) == Greetings(w, name) + sent
  }

  lemma EndOfFileSays(w: Worker, name: string)
    requires WorkerSays(w, name) && w.serving
    ensures ServesRightly(w, EndOfFile, name)
  {
    WorkerKeeps(w, EndOfFile);
    MovedKeeps(w, w.record.(state := DISCONNECT_STATE));
    QuietSays(w, WorkerStep(w, EndOfFile).0, name);
    Quiet(w, WorkerStep(w, EndOfFile).0, name);
  }

  lemma OutputSays(w: Worker, name: string)
    requires WorkerSays(w, name) && w.serving
    ensures ServesRightly(w, Output, name)
  {
    WorkerKeeps(w, Output);
    var (w', sent) := WorkerStep(w, Output);
    MovedKeeps(w, ServerOutput(w.record).0);
    QuietSays(w, w', name);
    if w.record.state == REQUESTED_INIT {
      StateTells(w);
      StateTells(w');
    } else {
      Quiet(w, w', name);
    }
  }

  lemma ByeIsLast(w: Worker, w': Worker, name: string)
    requires PushesExactly(w, name) && NameRight(w, name) && w.serving
    requires w' == w.(serving := false, pushed := w.pushed + [Farewell(w.record)])
    ensures PushesExactly(w', name) && ChatOf(w'.pushed) == ChatOf(w.pushed)
  {
    var bye := Farewell(w.record);
    ChatAppend(w.pushed, [bye]);
    ChatOfOne(bye);
    assert ChatOf(w.pushed) + [] == ChatOf(w.pushed);
  }

  lemma RetireSays(w: Worker, name: string)
    requires WorkerSays(w, name) && w.serving
    ensures ServesRightly(w, Retire, name)
  {
    var w' := WorkerStep(w, Retire).0;
    assert WorkerInv(w') by { RetireKeeps(w); }
    if w.record.state == DISCONNECT_STATE {
      ByeIsLast(w, w', name);
      assert w'.path == w.path && w'.record == w.record;
    } else {
      assert w' == w;
    }
    SameGreetings(w, w', name);
  }

  lemma SameGreetings(w: Worker, w': Worker, name: string)
    requires w'.path == w.path && w'.record == w.record
    ensures Greetings(w', name) == Greetings(w, name) + []
  {
  }

  lemma ServesSays(w: Worker, e: WorkerEvent, name: string)
    requires WorkerSays(w, name) && w.serving
    ensures ServesRightly(w, e, name)
  {
    match e
    case EndOfFile => EndOfFileSays(w, name);
    case Output => OutputSays(w, name);
    case Deliver(_) => assert Greetings(w, name) + [] == Greetings(w, name);
    case Retire => RetireSays(w, name);
  }

  // ---------------------------------------------------------------- what the worker has read

  /** A channel loses nothing: what is under way is the end of what was put in. */
  predicate Fifo(ch: Channel) { |ch.frames| <= |ch.sent| && ch.frames == ch.sent[|ch.sent| - |ch.frames|..] }

  /** What has been taken out. */
  function Taken(ch: Channel): seq<Frame>
    requires Fifo(ch)
  {
    ch.sent[..|ch.sent| - |ch.frames|]
  }

  lemma PutKeepsTaken(ch: Channel, fs: seq<Frame>)
    requires Fifo(ch)
    ensures Fifo(Put(ch, fs)) && Taken(Put(ch, fs)) == Taken(ch)
  {
  }

  lemma OneIsTaken(ch: Channel)
    requires Fifo(ch) && ch.frames != []
    ensures var ch' := ch.(frames := ch.frames[1..]); Fifo(ch') && Taken(ch') == Taken(ch) + [ch.frames[0]]
  {
  }

  /** The chat lines of a client that count: those after its INIT_DONE. */
  function Chat(fs: seq<Frame>): seq<Frame> { ChatOf(AfterDone(fs)) }

  lemma ChatGrows(fs: seq<Frame>, f: Frame)
    ensures Chat(fs + [f]) ==
              if CountOf(INIT_DONE, fs) > 0 && f.action == UNICAST_REPEATED then Chat(fs) + [f] else Chat(fs)
  {
    AfterDoneAppend(fs, f);
    if CountOf(INIT_DONE, fs) == 0 { NotDone(fs); } else { ChatAppend(AfterDone(fs), [f]); }
    ChatOfOne(f);
    assert Chat(fs) + [] == Chat(fs);
  }

  lemma {:induction false} NotDone(fs: seq<Frame>)
    requires CountOf(INIT_DONE, fs) == 0
    ensures AfterDone(fs) == []
  {
    if fs != [] { NotDone(fs[1..]); }
  }

  /** What has been pushed of a client's chat, `taken` being what has been read from it. */
  predicate Relays(w: Worker, taken: seq<Frame>) {
    && ChatOf(w.pushed) <= Chat(taken)
    && (w.record.state == INITIALIZED ==> ChatOf(w.pushed) == Chat(taken) && CountOf(INIT_DONE, taken) > 0)
  }

  lemma TakeRelays(w: Worker, f: Frame, name: string, taken: seq<Frame>)
    requires WorkerSays(w, name) && w.serving && (f.action == INIT_REQ ==> f.name == name) && Relays(w, taken)
    requires f.action == INIT_DONE ==> CountOf(INIT_DONE, taken) == 0
    ensures Relays(Take(w, f).0, taken + [f])
  {
    TakeKeeps(w, f);
    TakeSays(w, f, name);
    ChatGrows(taken, f);
    CountAppend(INIT_DONE, taken, [f]);
    var w' := Take(w, f).0;
    if w.record.state == INITIALIZED {
      assert Chat(taken + [f]) == ChatOf(w'.pushed);
    } else {
      assert ChatOf(w'.pushed) == ChatOf(w.pushed);
      if w'.record.state == INITIALIZED {
        assert w.pushed == [] && f.action == INIT_DONE;
        NotDone(taken);
        assert [f][1..] == [];
      }
    }
  }

  // ---------------------------------------------------------------- every step

  predicate AllRight(s: System) {
    && Inv(s) && ClientSays(s) && WorkerSays(s.worker, s.client.name)
    && Fifo(s.up) && Relays(s.worker, Taken(s.up))
  }

  lemma InputIsRight(s: System)
    requires AllRight(s)
    ensures AllRight(Step(s, Input))
  {
    StepKeeps(s, Input);
    if s.worker.serving && s.up.frames != [] {
      var f, taken := s.up.frames[0], Taken(s.up);
      OneIsTaken(s.up);
      assert s.up.sent == taken + s.up.frames;
      assert f == s.up.sent[|taken|];
      if f.action == INIT_DONE { CountAppend(INIT_DONE, taken, s.up.frames); }
      TakeSays(s.worker, f, s.client.name);
      TakeRelays(s.worker, f, s.client.name, taken);
    }
  }

  lemma ServesRelays(w: Worker, e: WorkerEvent, name: string, taken: seq<Frame>)
    requires WorkerSays(w, name) && w.serving && Relays(w, taken)
    ensures Relays(WorkerStep(w, e).0, taken)
  {
    WorkerKeeps(w, e);
    ServesSays(w, e, name);
  }

  lemma ServesIsRight(s: System, e: WorkerEvent)
    requires AllRight(s)
    ensures AllRight(Step(s, Serves(e)))
  {
    var s' := Step(s, Serves(e));
    assert Inv(s') by { StepKeeps(s, Serves(e)); }
    assert s'.client == s.client && s'.up == s.up;
    if s.worker.serving {
      ServesSays(s.worker, e, s.client.name);
      ServesRelays(s.worker, e, s.client.name, Taken(s.up));
    }
  }

  lemma ClientIsRight(s: System, e: Event)
    requires AllRight(s) && !e.Input? && !e.Serves?
    ensures AllRight(Step(s, e))
  {
    StepKeeps(s, e);
    StepSays(s, e);
    match e
    case Sends(se) => PutKeepsTaken(s.up, SenderStep(s.client, se).1);
    case Advance => PutKeepsTaken(s.up, ReceiverStep(s.client).1);
    case Receive =>
  }

  lemma StepIsRight(s: System, e: Event)
    requires AllRight(s)
    ensures AllRight(Step(s, e)) && Step(s, e).client.name == s.client.name
  {
    StepSays(s, e);
    match e
    case Input => InputIsRight(s);
    case Serves(we) => ServesIsRight(s, we);
    case _ => ClientIsRight(s, e);
  }

  // ---------------------------------------------------------------- whole runs

  function PassedOn(s: System, e: Event): seq<Frame> {
    if e.Serves? && s.worker.serving && PassesOn(s.worker, e.w) then [e.w.broadcast] else []
  }

  /** The messages passed on from the send queue in a run. */
  function Delivered(s: System, run: seq<Event>): seq<Frame>
    decreases |run|
  {
    if run == [] then [] else PassedOn(s, run[0]) + Delivered(Step(s, run[0]), run[1..])
  }

  /** The worker has sent the client its own frames and then `delivered`. */
  predicate Down(s: System, delivered: seq<Frame>) {
    && s.down.sent == Greetings(s.worker, s.client.name) + delivered
    && (delivered != [] ==> Reached(s.worker.path, INITIALIZED))
  }

  /** Once the last state has been reached there is no more to say of the worker's own. */
  lemma GreetingsEnd(w: Worker, w': Worker, name: string, sent: seq<Frame>)
    requires PathRight(w) && PathRight(w') && Greetings(w', name) == Greetings(w, name) + sent
    requires Reached(w.path, INITIALIZED)
    ensures sent == []
  {
    assert Reached(w.path, SENT_INIT_CONFIRMATION);
    assert |Greetings(w, name)| == 2 && |Greetings(w', name)| <= 2;
  }

  lemma ReachedStays(s: System, e: Event, k: nat)
    requires Inv(s) && Reached(s.worker.path, k)
    ensures Reached(Step(s, e).worker.path, k)
  {
  }

  /** What an event makes the worker send. */
  function Says(s: System, e: Event): seq<Frame> {
    if e.Input? && s.worker.serving && s.up.frames != [] then Take(s.worker, s.up.frames[0]).1
    else if e.Serves? && s.worker.serving then WorkerStep(s.worker, e.w).1
    else []
  }

  lemma StepSends(s: System, e: Event)
    ensures Step(s, e).down.sent == s.down.sent + Says(s, e)
  {
  }

  ghost predicate Greets(w: Worker, w': Worker, name: string, says: seq<Frame>, passed: seq<Frame>) {
    if passed != [] then w' == w && says == passed && Reached(w.path, INITIALIZED)
    else Greetings(w', name) == Greetings(w, name) + says
  }

  lemma WorkerStays(w: Worker, name: string)
    ensures Greets(w, w, name, [], [])
  {
    assert Greetings(w, name) + [] == Greetings(w, name);
  }

  lemma TakeGreets(w: Worker, f: Frame, name: string)
    requires WorkerSays(w, name) && w.serving && (f.action == INIT_REQ ==> f.name == name)
    ensures Greets(w, Take(w, f).0, name, Take(w, f).1, [])
  {
    TakeSays(w, f, name);
  }

  lemma ServesGreets(w: Worker, e: WorkerEvent, name: string)
    requires WorkerSays(w, name) && w.serving
    ensures Greets(w, WorkerStep(w, e).0, name, WorkerStep(w, e).1, if PassesOn(w, e) then [e.broadcast] else [])
  {
    ServesSays(w, e, name);
    if PassesOn(w, e) { StateTells(w); }
  }

  lemma StepGreets(s: System, e: Event)
    requires AllRight(s)
    ensures Greets(s.worker, Step(s, e).worker, s.client.name, Says(s, e), PassedOn(s, e))
  {
    if e.Input? && s.worker.serving && s.up.frames != [] {
      assert s.up.frames[0] == s.up.sent[|s.up.sent| - |s.up.frames|];
      TakeGreets(s.worker, s.up.frames[0], s.client.name);
    } else if e.Serves? && s.worker.serving {
      ServesGreets(s.worker, e.w, s.client.name);
    } else {
      WorkerStays(s.worker, s.client.name);
    }
  }

  lemma DownGrows(s: System, s': System, says: seq<Frame>, passed: seq<Frame>, delivered: seq<Frame>)
    requires Down(s, delivered) && s'.client.name == s.client.name && s'.down.sent == s.down.sent + says
    requires PathRight(s.worker) && PathRight(s'.worker)
    requires Reached(s.worker.path, INITIALIZED) ==> Reached(s'.worker.path, INITIALIZED)
    requires Greets(s.worker, s'.worker, s.client.name, says, passed)
    ensures Down(s', delivered + passed)
  {
    if passed == [] {
      if delivered != [] { GreetingsEnd(s.worker, s'.worker, s.client.name, says); }
      assert delivered + passed == delivered;
    } else {
      assert s'.down.sent == Greetings(s.worker, s.client.name) + (delivered + passed);
    }
  }

  lemma DownStep(s: System, e: Event, delivered: seq<Frame>)
    requires AllRight(s) && Down(s, delivered)
    ensures Down(Step(s, e), delivered + PassedOn(s, e))
  {
    var s' := Step(s, e);
    StepIsRight(s, e);
    StepSends(s, e);
    StepGreets(s, e);
    if Reached(s.worker.path, INITIALIZED) { ReachedStays(s, e, INITIALIZED); }
    DownGrows(s, s', Says(s, e), PassedOn(s, e), delivered);
  }

  lemma {:induction false} DownRun(s: System, run: seq<Event>, delivered: seq<Frame>)
    requires AllRight(s) && Down(s, delivered)
    ensures AllRight(Run(s, run)) && Down(Run(s, run), delivered + Delivered(s, run))
    ensures Run(s, run).client.name == s.client.name
    decreases |run|
  {
    if run == [] {
      assert delivered + [] == delivered;
    } else {
      StepIsRight(s, run[0]);
      DownStep(s, run[0], delivered);
      DownRun(Step(s, run[0]), run[1..], delivered + PassedOn(s, run[0]));
      Associative(delivered, PassedOn(s, run[0]), Delivered(Step(s, run[0]), run[1..]));
    }
  }

  lemma InitiallyRight(s: System)
    requires Initial(s)
    ensures AllRight(s) && Down(s, [])
  {
  }

  /** In every run the worker sends its client exactly this: the confirmation, with the id and colour of the record and
      the name the client asked with, once the record has passed its second state; the greeting once it has
      reached the last; and then the messages from its send queue, unchanged and in order. */
  lemma WorkerSendsExactly(s: System, run: seq<Event>)
    requires Initial(s)
    ensures var r := Run(s, run);
            && r.down.sent == Greetings(r.worker, s.client.name) + Delivered(s, run)
            && r.worker.record.name == if Reached(r.worker.path, REQUESTED_INIT) then s.client.name else ""
  {
    InitiallyRight(s);
    DownRun(s, run, []);
    assert [] + Delivered(s, run) == Delivered(s, run);
  }

  /** In every run the worker pushes to the listener exactly this: the announcement of the client by name, with the
      record's id and colour, once the record has reached its last state; then chat frames as the client sent them,
      field for field and in order -- all those read since its INIT_DONE, as long as the record is in that state; and
      the farewell with the record's id, name and colour when it lets the client go. */
  lemma WorkerPushesExactly(s: System, run: seq<Event>)
    requires Initial(s)
    ensures var r := Run(s, run);
            && PushesExactly(r.worker, s.client.name)
            && Fifo(r.up) && ChatOf(r.worker.pushed) <= Chat(Taken(r.up))
            && (r.worker.record.state == INITIALIZED ==> ChatOf(r.worker.pushed) == Chat(Taken(r.up)))
  {
    InitiallyRight(s);
    DownRun(s, run, []);
  }

  lemma ChatIsPart(fs: seq<Frame>, more: seq<Frame>) returns (before: seq<Frame>)
    ensures before + Chat(fs) + ChatOf(more) == ChatOf(fs + more)
  {
    var head := AfterDoneIsPart(fs);
    before := ChatOf(head);
    ChatAppend(head, AfterDone(fs));
    ChatAppend(fs, more);
  }

  lemma Stretch<T>(before: seq<T>, middle: seq<T>, after: seq<T>, out: seq<T>)
    requires out <= middle
    ensures (before + middle + after)[|before|..|before| + |out|] == out
  {
  }

  /** From keyboard to listener: the chat a worker pushes is a stretch of the lines the user typed, with nothing
      missing in between, changed, added or out of order. */
  lemma LinesArriveUnchanged(s: System, run: seq<Event>)
    requires Initial(s)
    ensures var r, lines := Run(s, run), AsFrames(s.client.name, Spoken(s, run));
            exists i: nat, j: nat :: i <= j <= |lines| && ChatOf(r.worker.pushed) == lines[i..j]
  {
    var r, lines := Run(s, run), AsFrames(s.client.name, Spoken(s, run));
    ClientSaysExactly(s, run);
    WorkerPushesExactly(s, run);
    var before := ChatIsPart(Taken(r.up), r.up.frames);
    var out := ChatOf(r.worker.pushed);
    assert r.up.sent == Taken(r.up) + r.up.frames;
    Associative(before + Chat(Taken(r.up)), ChatOf(r.up.frames), Held(r.client));
    Stretch(before, Chat(Taken(r.up)), ChatOf(r.up.frames) + Held(r.client), out);
  }

  // ---------------------------------------------------------------- what the client receives, and when it is let go

  /** What the receiving thread takes from the channel. */
  function Receives(s: System, e: Event): seq<Frame> {
    var c, c' := s.client, Step(s, e).client;
    if e.Receive? && c.receiver.Waiting? && c'.receiver.Got? then [c'.receiver.frame] else []
  }

  function AllReceived(s: System, run: seq<Event>): seq<Frame>
    decreases |run|
  {
    if run == [] then [] else Receives(s, run[0]) + AllReceived(Step(s, run[0]), run[1..])
  }

  lemma ReceiveStep(s: System, e: Event)
    requires Fifo(s.down)
    ensures Fifo(Step(s, e).down) && Taken(Step(s, e).down) == Taken(s.down) + Receives(s, e)
  {
    assert Taken(s.down) + [] == Taken(s.down);
    if e.Receive? {
      if s.client.receiver.Waiting? && s.down.frames != [] { OneIsTaken(s.down); }
    } else {
      DownPut(s, e);
      PutKeepsTaken(s.down, Says(s, e));
    }
  }

  lemma DownPut(s: System, e: Event)
    requires !e.Receive?
    ensures Step(s, e).down == Put(s.down, Says(s, e))
  {
    assert Put(s.down, []) == s.down;
  }

  lemma {:induction false} ReceiveRun(s: System, run: seq<Event>)
    requires Fifo(s.down)
    ensures Fifo(Run(s, run).down) && Taken(Run(s, run).down) == Taken(s.down) + AllReceived(s, run)
    decreases |run|
  {
    if run == [] {
      assert Taken(s.down) + [] == Taken(s.down);
    } else {
      ReceiveStep(s, run[0]);
      ReceiveRun(Step(s, run[0]), run[1..]);
      Associative(Taken(s.down), Receives(s, run[0]), AllReceived(Step(s, run[0]), run[1..]));
    }
  }

  /** The client receives what its worker has sent, each frame once and in order; the rest is under way. */
  lemma ClientReceivesExactly(s: System, run: seq<Event>)
    requires Initial(s)
    ensures var r := Run(s, run); r.down.sent == AllReceived(s, run) + r.down.frames
  {
    NothingSentYet(s);
    ReceiveRun(s, run);
    TakenAndRest(Run(s, run).down);
    assert [] + AllReceived(s, run) == AllReceived(s, run);
  }

  lemma NothingSentYet(s: System)
    requires Initial(s)
    ensures Fifo(s.down) && Taken(s.down) == [] && Inv(s) && Marked(s, false)
  {
  }

  lemma TakenAndRest(ch: Channel)
    requires Fifo(ch)
    ensures ch.sent == Taken(ch) + ch.frames
  {
  }

  predicate SaidGoodbye(fs: seq<Frame>) { exists k :: 0 <= k < |fs| && fs[k].action == CL_DISCONNECTED }

  /** Whether the worker has found the client's end closed in a run. */
  predicate Closed(s: System, run: seq<Event>)
    decreases |run|
  {
    run != [] && ((run[0] == Serves(EndOfFile) && s.worker.serving) || Closed(Step(s, run[0]), run[1..]))
  }

  predicate Marked(s: System, closed: bool) {
    Fifo(s.up) && (s.worker.record.state == DISCONNECT_STATE <==> SaidGoodbye(Taken(s.up)) || closed)
  }

  lemma MarkedStep(s: System, e: Event, closed: bool)
    requires WorkerInv(s.worker) && Marked(s, closed)
    ensures Marked(Step(s, e), closed || (e == Serves(EndOfFile) && s.worker.serving))
  {
    match e
    case Sends(se) => PutKeepsTaken(s.up, SenderStep(s.client, se).1);
    case Advance => PutKeepsTaken(s.up, ReceiverStep(s.client).1);
    case Input =>
      if s.worker.serving && s.up.frames != [] {
        OneIsTaken(s.up);
        GoodbyeGrows(Taken(s.up), s.up.frames[0]);
      }
    case Serves(we) =>
    case Receive =>
  }

  lemma GoodbyeGrows(fs: seq<Frame>, f: Frame)
    ensures SaidGoodbye(fs + [f]) <==> SaidGoodbye(fs) || f.action == CL_DISCONNECTED
  {
    if SaidGoodbye(fs) {
      var k :| 0 <= k < |fs| && fs[k].action == CL_DISCONNECTED;
      assert (fs + [f])[k].action == CL_DISCONNECTED;
    }
    if f.action == CL_DISCONNECTED { assert (fs + [f])[|fs|].action == CL_DISCONNECTED; }
  }

  lemma {:induction false} MarkedRun(s: System, run: seq<Event>, closed: bool)
    requires Inv(s) && Marked(s, closed)
    ensures Inv(Run(s, run)) && Marked(Run(s, run), closed || Closed(s, run))
    decreases |run|
  {
    if run != [] {
      StepKeeps(s, run[0]);
      MarkedStep(s, run[0], closed);
      MarkedRun(Step(s, run[0]), run[1..], closed || (run[0] == Serves(EndOfFile) && s.worker.serving));
    }
  }

  /** The record is marked for departure exactly when the worker has read a goodbye or found the client's end closed;
      and then, and only then, the worker's next look at it lets the client go with a farewell. */
  lemma LetGoIff(s: System, run: seq<Event>)
    requires Initial(s)
    ensures var r := Run(s, run);
            && Fifo(r.up)
            && (r.worker.record.state == DISCONNECT_STATE <==> SaidGoodbye(Taken(r.up)) || Closed(s, run))
            && (r.worker.serving ==>
                  if SaidGoodbye(Taken(r.up)) || Closed(s, run) then LetsGo(r, Step(r, Serves(Retire)))
                  else Step(r, Serves(Retire)).worker == r.worker)
  {
    NothingSentYet(s);
    MarkedRun(s, run, false);
    if Run(s, run).worker.serving { RetireLetsGo(Run(s, run)); }
  }

  /** The worker serves the client no more, and has pushed one more message, a CL_DISCONNECTED. */
  predicate LetsGo(r: System, r': System) {
    && !r'.worker.serving && |r'.worker.pushed| == |r.worker.pushed| + 1
    && r'.worker.pushed[|r.worker.pushed|].action == CL_DISCONNECTED
  }

  lemma RetireLetsGo(r: System)
    requires r.worker.serving
    ensures var r' := Step(r, Serves(Retire));
            if r.worker.record.state == DISCONNECT_STATE then LetsGo(r, r') else r'.worker == r.worker
  {
  }

  // ---------------------------------------------------------------- a line typed too early

  /** The request is out, the flag is set, and the answer is on its way. */
  lemma AnswerUnderWay(s: System)
    requires Initial(s) && s.client.name != ""
    ensures var r := Run(s, [Sends(SendRequest), Sends(RaiseFlag), Input, Serves(Output)]);
            && r.client == s.client.(initReq := true, draft := r.client.draft) && r.up.frames == []
            && |r.down.frames| == 1 && r.down.frames[0].action == INIT_REQ && r.down.frames[0].color.Some?
            && r.worker.serving && r.worker.record.state == SENT_INIT_CONFIRMATION && r.worker.pushed == []
  {
    var s2 := Step(Step(s, Sends(SendRequest)), Sends(RaiseFlag));
    assert s2.up.frames == [s2.client.draft] && s2.client.draft.action == INIT_REQ;
    var s3 := Step(s2, Input);
    assert s3.worker.record.state == REQUESTED_INIT && s3.up.frames == [] && s3.down.frames == [] && s3.worker.pushed == [];
    RunTwo(s, Sends(SendRequest), Sends(RaiseFlag));
    RunTwo(s2, Input, Serves(Output));
    RunAppend(s, [Sends(SendRequest), Sends(RaiseFlag)], [Input, Serves(Output)]);
  }

  lemma RunTwo(s: System, a: Event, b: Event)
    ensures Run(s, [a, b]) == Step(Step(s, a), b)
  {
    assert [a, b][1..] == [b] && [b][1..] == [];
    assert Run(Step(s, a), [b]) == Step(Step(s, a), b);
  }

  /** The receiving thread finalises; the sending thread holds its line meanwhile. */
  lemma DoneIsSent(s: System, f: Frame)
    requires s.client.receiver == Got(f) && f.action == INIT_REQ && f.color.Some? && s.client.initReq && !s.client.initDone
    ensures var r := Run(s, [Advance, Advance, Advance, Advance] + [Advance]);
            && r.client.sender == s.client.sender && r.client.draft == s.client.draft && r.client.receiver.Waiting?
            && r.up.frames == s.up.frames + [BLANK.(action := INIT_DONE)] && r.worker == s.worker
  {
    var s2 := Step(Step(s, Advance), Advance);
    var s4 := Step(Step(s2, Advance), Advance);
    assert s4.client.receiver == Reply && s4.up.frames == s.up.frames && s4.client.draft == s.client.draft;
    RunTwo(s, Advance, Advance);
    RunTwo(s2, Advance, Advance);
    RunAppend(s, [Advance, Advance], [Advance, Advance]);
    assert [Advance, Advance, Advance, Advance] == [Advance, Advance] + [Advance, Advance];
    RunAppend(s, [Advance, Advance, Advance, Advance], [Advance]);
    assert [Advance][1..] == [];
    assert Run(s4, [Advance]) == Step(s4, Advance);
  }

  /** The held line goes out after INIT_DONE, and the worker relays it. */
  lemma HeldLineIsRelayed(s: System)
    requires s.client.sender.Composed? && s.client.draft.action == UNICAST_REPEATED
    requires s.up.frames == [BLANK.(action := INIT_DONE)]
    requires s.worker.serving && s.worker.record.state == SENT_INIT_CONFIRMATION && s.worker.pushed == []
    ensures var r := Run(s, [Sends(SendDraft), Input] + [Input]);
            r.worker.record.state == INITIALIZED && |r.worker.pushed| == 2 && r.worker.pushed[1] == s.client.draft
  {
    var s1 := Step(s, Sends(SendDraft));
    assert s1.up.frames == [BLANK.(action := INIT_DONE), s.client.draft];
    var s2 := Step(s1, Input);
    assert s2.up.frames == [s.client.draft] && s2.worker.record.state == INITIALIZED && |s2.worker.pushed| == 1;
    RunTwo(s, Sends(SendDraft), Input);
    RunAppend(s, [Sends(SendDraft), Input], [Input]);
    assert [Input][1..] == [];
    assert Run(s2, [Input]) == Step(s2, Input);
  }

  /** A line typed after the request but before the answer has been acted upon, and sent only afterwards, reaches the
      listener without an id, which the listener cannot read. */
  lemma AnEarlyLineHasNoId(s: System, line: string) returns (run: seq<Event>)
    requires Initial(s) && s.client.name != "" && line != "" && line != QUIT_MSG
    ensures var r := Run(s, run);
            && r.worker.record.state == INITIALIZED && |r.worker.pushed| == 2
            && r.worker.pushed[1] == Frame(UNICAST_REPEATED, None, s.client.name, Some(s.client.color), line)
  {
    var answer := [Sends(SendRequest), Sends(RaiseFlag), Input, Serves(Output)];
    var s1 := Run(s, answer);
    AnswerUnderWay(s);
    var s2 := Step(Step(s1, Receive), Sends(Type(line)));
    RunTwo(s1, Receive, Sends(Type(line)));
    assert s2.client.draft == Frame(UNICAST_REPEATED, None, s.client.name, Some(s.client.color), line);
    DoneIsSent(s2, s1.down.frames[0]);
    var s3 := Run(s2, [Advance, Advance, Advance, Advance] + [Advance]);
    HeldLineIsRelayed(s3);
    RunAppend(s2, [Advance, Advance, Advance, Advance] + [Advance], [Sends(SendDraft), Input] + [Input]);
    var rest := [Advance, Advance, Advance, Advance] + [Advance] + ([Sends(SendDraft), Input] + [Input]);
    RunAppend(s1, [Receive, Sends(Type(line))], rest);
    RunAppend(s, answer, [Receive, Sends(Type(line))] + rest);
    run := answer + ([Receive, Sends(Type(line))] + rest);
  }
}
