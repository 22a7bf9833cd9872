/** The server's table of connected clients: slots, ids that are never reused, and the send queues the
    listener fills and the workers drain. */
module ClientTable {
  import opened Wrappers
  import opened Resources

  /** The contents of one client record. */
  datatype Record = Record(id: int, fd: int, name: string, colorId: int, state: int, queue: seq<string>)

  /** The contents of the server: its slots, the connection count, and the id the next record will get. */
  datatype Table = Table(slots: seq<Option<Record>>, connections: int, nextId: int)

  predicate HasId(s: Option<Record>, id: int) { s.Some? && s.value.id == id }

  function Occupied(slots: seq<Option<Record>>): nat {
    if slots == [] then 0 else (if slots[0].Some? then 1 else 0) + Occupied(slots[1..])
  }

  /** The first free slot, or the number of slots if there is none. */
  function FirstFree(slots: seq<Option<Record>>): (i: nat)
    ensures i <= |slots|
    ensures forall j | 0 <= j < i :: slots[j].Some?
    ensures i < |slots| ==> slots[i].None?
  {
    if slots == [] || slots[0].None? then 0 else 1 + FirstFree(slots[1..])
  }

  /** The first slot holding `id`, or the number of slots if there is none. */
  function Find(slots: seq<Option<Record>>, id: int): (i: nat)
    ensures i <= |slots|
    ensures forall j | 0 <= j < i :: !HasId(slots[j], id)
    ensures i < |slots| ==> HasId(slots[i], id)
  {
    if slots == [] || HasId(slots[0], id) then 0 else 1 + Find(slots[1..], id)
  }

  /** The ids of the occupied slots, in slot order. */
  function Ids(slots: seq<Option<Record>>): seq<int> {
    if slots == [] then []
    else (if slots[0].Some? then [slots[0].value.id] else []) + Ids(slots[1..])
  }

  function Accept(t: Table, fd: int, color: int): (Table, (int, int)) {
    var i := FirstFree(t.slots);
    if i < |t.slots| then
      (Table(t.slots[i := Some(Record(t.nextId, fd, "", color, INITIAL_STATE, []))], t.connections + 1, t.nextId + 1),
       (fd, t.nextId))
    else (t, (-1, -1))
  }

  /** None is the exception "client not found". */
  function Disconnect(t: Table, id: int): Option<Table> {
    var i := Find(t.slots, id);
    if i < |t.slots| then Some(Table(t.slots[i := None], t.connections - 1, t.nextId)) else None
  }

  // ---------------------------------------------------------------- the invariant of the table

  ghost predicate IdsDiffer(slots: seq<Option<Record>>) {
    forall i, j | 0 <= i < j < |slots| && slots[i].Some? && slots[j].Some? :: slots[i].value.id != slots[j].value.id
  }

  ghost predicate TableInv(t: Table) {
    && t.connections == Occupied(t.slots)
    && 0 <= t.nextId
    && IdsDiffer(t.slots)
    && forall i | 0 <= i < |t.slots| && t.slots[i].Some? :: 0 <= t.slots[i].value.id < t.nextId
  }

  lemma {:induction false} OccupiedUpdate(slots: seq<Option<Record>>, i: nat, s: Option<Record>)
    requires i < |slots|
    ensures Occupied(slots[i := s]) + (if slots[i].Some? then 1 else 0)
         == Occupied(slots) + (if s.Some? then 1 else 0)
  {
    if i == 0 {
      assert slots[0 := s][1..] == slots[1..];
    } else {
      assert slots[i := s][1..] == slots[1..][i - 1 := s];
      OccupiedUpdate(slots[1..], i - 1, s);
    }
  }

  lemma {:induction false} OccupiedAll(slots: seq<Option<Record>>)
    ensures Occupied(slots) <= |slots|
    ensures Occupied(slots) == |slots| <==> forall i | 0 <= i < |slots| :: slots[i].Some?
    ensures Occupied(slots) == 0 <==> forall i | 0 <= i < |slots| :: slots[i].None?
  {
    if slots != [] {
      OccupiedAll(slots[1..]);
      assert forall i | 0 < i < |slots| :: slots[i] == slots[1..][i - 1];
    }
  }

  /** `t'` is `t` with a new record in slot `i`, the first free one: nothing said, nothing queued, no name yet. */
  ghost predicate Seats(t: Table, t': Table, i: nat, fd: int, color: int) {
    && |t'.slots| == |t.slots| && i < |t.slots|
    && t.slots[i].None? && (forall j | 0 <= j < i :: t.slots[j].Some?)
    && (forall j | 0 <= j < |t.slots| && j != i :: t'.slots[j] == t.slots[j])
    && t'.slots[i].Some?
    && var r := t'.slots[i].value;
       && r.id == t.nextId && r.fd == fd && r.colorId == color
       && r.name == "" && r.state == INITIAL_STATE && r.queue == []
  }

  /** A client is turned away, and the table left as it was, exactly when every slot is taken. An accepted one gets
      the first free slot and an id no record has ever had, and no other slot changes. */
  lemma AcceptKeepsTable(t: Table, fd: int, color: int)
    requires TableInv(t) && fd >= 0
    ensures var (t', (fd', id)) := Accept(t, fd, color);
            && TableInv(t') && |t'.slots| == |t.slots|
            && (id == -1 <==> t.connections == |t.slots|)
            && (id == -1 ==> fd' == -1 && t' == t)
            && (id != -1 ==>
                  && fd' == fd && id == t.nextId == t'.nextId - 1 && t'.connections == t.connections + 1
                  && (forall i | 0 <= i < |t.slots| :: !HasId(t.slots[i], id))
                  && exists i: nat :: Seats(t, t', i, fd, color))
  {
    var i := FirstFree(t.slots);
    OccupiedAll(t.slots);
    if i < |t.slots| {
      var t' := Accept(t, fd, color).0;
      OccupiedUpdate(t.slots, i, t'.slots[i]);
      assert Seats(t, t', i, fd, color);
    }
  }

  /** Disconnecting removes exactly the record with that id, and fails exactly when there is none. */
  lemma DisconnectKeepsTable(t: Table, id: int)
    requires TableInv(t)
    ensures Disconnect(t, id).Some? <==> exists i :: 0 <= i < |t.slots| && HasId(t.slots[i], id)
    ensures Disconnect(t, id).Some? ==>
              var t' := Disconnect(t, id).value;
              && TableInv(t') && |t'.slots| == |t.slots| && t'.nextId == t.nextId
              && t'.connections == t.connections - 1
              && forall i | 0 <= i < |t.slots| ::
                   t'.slots[i] == if HasId(t.slots[i], id) then None else t.slots[i]
  {
    var i := Find(t.slots, id);
    if i < |t.slots| {
      OccupiedUpdate(t.slots, i, None);
    }
  }

  /** The list of connected ids names every occupied slot once, in slot order. */
  lemma {:induction false} IdsAreExact(slots: seq<Option<Record>>)
    requires IdsDiffer(slots)
    ensures |Ids(slots)| == Occupied(slots)
    ensures forall id :: id in Ids(slots) <==> exists i :: 0 <= i < |slots| && HasId(slots[i], id)
    ensures forall i, j | 0 <= i < j < |Ids(slots)| :: Ids(slots)[i] != Ids(slots)[j]
  {
    if slots != [] {
      var rest := slots[1..];
      assert forall i | 0 < i < |slots| :: slots[i] == rest[i - 1];
      IdsAreExact(rest);
      forall id ensures id in Ids(slots) <==> exists i :: 0 <= i < |slots| && HasId(slots[i], id) {
        if id in Ids(slots) {
          if id in Ids(rest) {
            var i :| 0 <= i < |rest| && HasId(rest[i], id);
            assert HasId(slots[i + 1], id);
          } else {
            assert HasId(slots[0], id);
          }
        }
        if i :| 0 <= i < |slots| && HasId(slots[i], id) {
          if i > 0 { assert HasId(rest[i - 1], id); }
        }
      }
      if slots[0].Some? {
        var first := slots[0].value.id;
        assert first !in Ids(rest);
      }
    }
  }

  // ---------------------------------------------------------------- repeated unicast

  /** Pushes `msg` to the client in slot `i`. */
  function Enqueue(slots: seq<Option<Record>>, i: nat, msg: string): seq<Option<Record>>
    requires i < |slots| && slots[i].Some?
  {
    slots[i := Some(slots[i].value.(queue := slots[i].value.queue + [msg]))]
  }

  /** unicast_repeated: to each listed id in turn, except one; it gives up at the first full queue. */
  function Unicast(slots: seq<Option<Record>>, queueSize: nat, excepted: int, ids: seq<int>, msg: string):
    (seq<Option<Record>>, bool)
    decreases ids
  {
    if ids == [] then (slots, true)
    else
      var i := Find(slots, ids[0]);
      if excepted == ids[0] || i == |slots| then Unicast(slots, queueSize, excepted, ids[1..], msg)
      else if |slots[i].value.queue| >= queueSize then (slots, false)
      else Unicast(Enqueue(slots, i, msg), queueSize, excepted, ids[1..], msg)
  }

  ghost predicate Targeted(s: Option<Record>, excepted: int, ids: seq<int>) {
    s.Some? && s.value.id != excepted && s.value.id in ids
  }

  function WithMessage(s: Option<Record>, msg: string): Option<Record>
    requires s.Some?
  {
    Some(s.value.(queue := s.value.queue + [msg]))
  }

  lemma EnqueueKeepsIds(slots: seq<Option<Record>>, i: nat, msg: string)
    requires i < |slots| && slots[i].Some? && IdsDiffer(slots)
    ensures IdsDiffer(Enqueue(slots, i, msg)) && |Enqueue(slots, i, msg)| == |slots|
    ensures forall k, id | 0 <= k < |slots| :: HasId(Enqueue(slots, i, msg)[k], id) == HasId(slots[k], id)
  {
  }

  /** Repeated unicast succeeds exactly when every targeted queue has room; then each targeted client has got
      the message exactly once, at the end of its queue, and nobody else has. */
  lemma {:induction false} UnicastIsExact(slots: seq<Option<Record>>, queueSize: nat, excepted: int, ids: seq<int>, msg: string)
    requires IdsDiffer(slots) && forall i, j | 0 <= i < j < |ids| :: ids[i] != ids[j]
    ensures var (slots', ok) := Unicast(slots, queueSize, excepted, ids, msg);
            && (ok <==> forall k | 0 <= k < |slots| && Targeted(slots[k], excepted, ids) ::
                          |slots[k].value.queue| < queueSize)
            && |slots'| == |slots|
            && (ok ==> forall k | 0 <= k < |slots| ::
                  slots'[k] == if Targeted(slots[k], excepted, ids) then WithMessage(slots[k], msg) else slots[k])
    decreases ids
  {
    if ids != [] {
      var i, rest := Find(slots, ids[0]), ids[1..];
      assert ids == [ids[0]] + rest;
      assert ids[0] !in rest;
      if excepted == ids[0] || i == |slots| {
        UnicastIsExact(slots, queueSize, excepted, rest, msg);
        forall k | 0 <= k < |slots| ensures Targeted(slots[k], excepted, ids) == Targeted(slots[k], excepted, rest) {
          if slots[k].Some? && slots[k].value.id == ids[0] { assert HasId(slots[k], ids[0]); }
        }
      } else if |slots[i].value.queue| >= queueSize {
        assert Targeted(slots[i], excepted, ids);
      } else {
        var mid := Enqueue(slots, i, msg);
        EnqueueKeepsIds(slots, i, msg);
        UnicastIsExact(mid, queueSize, excepted, rest, msg);
        forall k | 0 <= k < |slots|
          ensures k != i ==> mid[k] == slots[k] && Targeted(slots[k], excepted, ids) == Targeted(mid[k], excepted, rest)
        {
          if k != i && slots[k].Some? { assert slots[k].value.id != slots[i].value.id; }
        }
        assert Targeted(slots[i], excepted, ids) && !Targeted(mid[i], excepted, rest);
      }
    }
  }

  /** A failure stops it at the first targeted client whose queue is full: exactly those listed before have got the
      message. */
  lemma {:induction false} UnicastStopsAtFirstFull(slots: seq<Option<Record>>, queueSize: nat, excepted: int, ids: seq<int>,
                                                    msg: string)
    returns (n: nat)
    requires IdsDiffer(slots) && forall i, j | 0 <= i < j < |ids| :: ids[i] != ids[j]
    requires !Unicast(slots, queueSize, excepted, ids, msg).1
    ensures n < |ids| && ids[n] != excepted
    ensures exists i :: 0 <= i < |slots| && HasId(slots[i], ids[n]) && |slots[i].value.queue| >= queueSize
    ensures Unicast(slots, queueSize, excepted, ids[..n], msg) == (Unicast(slots, queueSize, excepted, ids, msg).0, true)
    decreases ids
  {
    var i, rest := Find(slots, ids[0]), ids[1..];
    if excepted == ids[0] || i == |slots| {
      n := UnicastStopsAtFirstFull(slots, queueSize, excepted, rest, msg);
      n := n + 1;
      assert ids[..n][1..] == rest[..n - 1];
    } else if |slots[i].value.queue| >= queueSize {
      n := 0;
    } else {
      var mid := Enqueue(slots, i, msg);
      EnqueueKeepsIds(slots, i, msg);
      n := UnicastStopsAtFirstFull(mid, queueSize, excepted, rest, msg);
      n := n + 1;
      assert ids[..n][1..] == rest[..n - 1] && ids[n] != ids[0];
      var k :| 0 <= k < |mid| && HasId(mid[k], ids[n]) && |mid[k].value.queue| >= queueSize;
      assert k != i && HasId(slots[k], ids[n]);
    }
  }
}
