/** The objects of the server: client records updated in place, the slot array that holds them, and the
    listener's repeated unicast into their queues. Each method is tied to the function of the table contents
    it computes. */
module ChatServer {
  import opened Wrappers
  import opened Resources
  import opened ClientTable

  class ClientData {
    const personalId: int
    var fd: int
    var name: string
    var colorId: int
    var initState: int
    var sendQueue: seq<string>

    function View(): Record
      reads this
    {
      Record(personalId, fd, name, colorId, initState, sendQueue)
    }

    constructor (id: int, fd: int, color: int)
      ensures personalId == id && this.fd == fd && colorId == color
      ensures name == "" && initState == INITIAL_STATE && sendQueue == []
    {
      personalId, this.fd, name, colorId, initState, sendQueue := id, fd, "", color, INITIAL_STATE, [];
    }

    /** The bounded queue refuses when it is full. */
    method TryPush(queueSize: nat, msg: string) returns (ok: bool)
      modifies this`sendQueue
      ensures ok == (|old(sendQueue)| < queueSize)
      ensures sendQueue == if ok then old(sendQueue) + [msg] else old(sendQueue)
    {
      if |sendQueue| < queueSize {
        sendQueue := sendQueue + [msg];
        return true;
      }
      return false;
    }

    method TryPop() returns (msg: Option<string>)
      modifies this`sendQueue
      ensures old(sendQueue) == [] ==> msg == None && sendQueue == []
      ensures old(sendQueue) != [] ==> msg.Some? && old(sendQueue) == [msg.value] + sendQueue
    {
      if sendQueue == [] { return None; }
      msg := Some(sendQueue[0]);
      sendQueue := sendQueue[1..];
    }

    method IncState()
      modifies this`initState
      ensures initState == old(initState) + 1
    {
      initState := initState + 1;
    }

    method SetState(state: int)
      modifies this`initState
      ensures initState == state
    {
      initState := state;
    }
  }

  class Server {
    const clients: array<ClientData?>
    var nrOfConnections: int
    var nextId: int  // the counter all client records share

    ghost function SlotView(i: int): Option<Record>
      reads this, clients, clients[..]
      requires 0 <= i < clients.Length
    {
      if clients[i] == null then None else Some(clients[i].View())
    }

    ghost function Slots(): (s: seq<Option<Record>>)
      reads this, clients, clients[..]
      ensures |s| == clients.Length
      ensures forall i | 0 <= i < clients.Length :: s[i] == SlotView(i)
    {
      seq(clients.Length, i requires 0 <= i < clients.Length reads this, clients, clients[..] => SlotView(i))
    }

    ghost function View(): Table
      reads this, clients, clients[..]
    {
      Table(Slots(), nrOfConnections, nextId)
    }

    /** Ids differ, so no record sits in two slots. */
    ghost predicate Valid()
      reads this, clients, clients[..]
    {
      TableInv(View())
    }

    constructor (maxClients: nat)
      ensures Valid() && fresh(clients)
      ensures View() == Table(seq(maxClients, _ => None), 0, 0)
    {
      clients := new ClientData?[maxClients](_ => null);
      nrOfConnections, nextId := 0, 0;
      new;
      OccupiedAll(Slots());
    }

    method GetConnectedIDs() returns (ids: seq<int>)
      ensures ids == Ids(Slots())
    {
      ids := [];
      ghost var slots := Slots();
      for i := 0 to clients.Length
        invariant ids + Ids(slots[i..]) == Ids(slots)
      {
        assert slots[i..][1..] == slots[i + 1..];
        if clients[i] != null {
          ids := ids + [clients[i].personalId];
        }
      }
    }

    /** The record with the given id, if it is connected. */
    method GetClientRef(id: int) returns (client: ClientData?, ghost slot: nat)
      ensures slot == Find(Slots(), id)
      ensures client == if slot < clients.Length then clients[slot] else null
      ensures slot < clients.Length <==> client != null
      ensures client != null ==> client.personalId == id
    {
      ghost var slots := Slots();
      for i := 0 to clients.Length
        invariant forall j | 0 <= j < i :: !HasId(slots[j], id)
      {
        if clients[i] != null && clients[i].personalId == id {
          client, slot := clients[i], i;
          assert HasId(slots[i], id);
          return;
        }
      }
      client, slot := null, clients.Length;
      assert Find(slots, id) == clients.Length;
    }

    /** `fd` is the socket accepted; the new record's colour is chosen at random. */
    method AcceptClient(fd: int, color: int) returns (fdAndId: (int, int))
      requires Valid() && fd >= 0
      modifies this`nrOfConnections, this`nextId, clients
      ensures Valid()
      ensures (View(), fdAndId) == Accept(old(View()), fd, color)
      ensures fdAndId.1 != -1 ==> exists i: nat :: Seats(old(View()), View(), i, fd, color)
      ensures forall i | 0 <= i < clients.Length :: clients[i] != old(clients[i]) ==> fresh(clients[i])
    {
      AcceptKeepsTable(View(), fd, color);
      ghost var slots := Slots();
      var i := 0;
      while i < clients.Length && clients[i] != null
        invariant 0 <= i <= clients.Length
        invariant forall j | 0 <= j < i :: slots[j].Some?
      {
        i := i + 1;
      }
      assert i == clients.Length || slots[i].None?;
      assert FirstFree(slots) == clients.Length || slots[FirstFree(slots)].None?;
      assert i == FirstFree(slots);
      if i < clients.Length {
        var client := new ClientData(nextId, fd, color);
        clients[i] := client;
        nextId := nextId + 1;
        nrOfConnections := nrOfConnections + 1;
        assert Slots() == slots[i := Some(client.View())];
        return (fd, client.personalId);
      }
      return (-1, -1);
    }

    method DisconnectClient(id: int) returns (found: bool)
      requires Valid()
      modifies this`nrOfConnections, clients
      ensures Valid()
      ensures found == Disconnect(old(View()), id).Some?
      ensures View() == if found then Disconnect(old(View()), id).value else old(View())
      ensures forall i | 0 <= i < clients.Length :: clients[i] == old(clients[i]) || clients[i] == null
    {
      DisconnectKeepsTable(View(), id);
      ghost var slots := Slots();
      var client, slot := GetClientRef(id);
      if client == null { return false; }
      var i := 0;
      while !(clients[i] != null && clients[i].personalId == id)
        invariant 0 <= i <= slot
        decreases slot - i
      {
        assert !HasId(slots[i], id);
        i := i + 1;
      }
      assert HasId(slots[i], id) && i == slot;
      nrOfConnections := nrOfConnections - 1;
      clients[i] := null;
      assert Slots() == slots[i := None];
      return true;
    }

    /** Pushes `msg` to every listed client but one; stops with a failure at the first full queue. */
    method UnicastRepeated(queueSize: nat, excepted: int, populatedIDs: seq<int>, msg: string) returns (ok: bool)
      requires Valid()
      modifies clients[..]
      ensures Valid() && clients[..] == old(clients[..])
      ensures (Slots(), ok) == Unicast(old(Slots()), queueSize, excepted, populatedIDs, msg)
      ensures nrOfConnections == old(nrOfConnections) && nextId == old(nextId)
    {
      ghost var before := Slots();
      for k := 0 to |populatedIDs|
        invariant Valid() && clients[..] == old(clients[..])
        invariant nrOfConnections == old(nrOfConnections) && nextId == old(nextId)
        invariant Unicast(Slots(), queueSize, excepted, populatedIDs[k..], msg)
               == Unicast(before, queueSize, excepted, populatedIDs, msg)
      {
        ghost var ids := populatedIDs[k..];
        assert ids[0] == populatedIDs[k] && ids[1..] == populatedIDs[k + 1..];
        if excepted != populatedIDs[k] {
          var client, slot := GetClientRef(populatedIDs[k]);
          if client != null {
            ok := PushTo(client, slot, queueSize, msg);
            if !ok { return; }
          }
        }
      }
      return true;
    }

    /** One push, seen in the whole table. */
    method PushTo(client: ClientData, ghost slot: nat, queueSize: nat, msg: string) returns (ok: bool)
      requires Valid() && slot < clients.Length && clients[slot] == client
      modifies client
      ensures Valid() && ok == (old(|client.sendQueue|) < queueSize)
      ensures Slots() == if ok then Enqueue(old(Slots()), slot, msg) else old(Slots())
    {
      ghost var before := Slots();
      EnqueueKeepsIds(before, slot, msg);
      forall i | 0 <= i < clients.Length && i != slot ensures clients[i] != client {
        assert before[i].Some? ==> before[i].value.id != before[slot].value.id;
      }
      ok := client.TryPush(queueSize, msg);
      if ok {
        assert Slots() == Enqueue(before, slot, msg);
        OccupiedUpdate(before, slot, Slots()[slot]);
      } else {
        assert Slots() == before;
      }
    }
  }
}
