/** The account server's slot table: each accepted socket goes into the next free slot, and the thread started for
    it is handed the slot's address, to be read whenever the thread gets to run. */
module ClientTable {

  const MAX_CLIENTS := 100

  /** One accepted connection, and whether starting a thread for it succeeds. */
  datatype Arrival = Arrival(socket: int, created: bool)

  datatype Table = Table(sockets: seq<int>, num: nat)

  function Empty(): Table {
    Table(seq(MAX_CLIENTS, _ => 0), 0)
  }

  /** A failed thread leaves its socket in the slot, but the slot is not counted and will be used again. */
  function Accepted(t: Table, a: Arrival): Table {
    if t.num < MAX_CLIENTS && t.num < |t.sockets|
    then Table(t.sockets[t.num := a.socket], if a.created then t.num + 1 else t.num)
    else t
  }

  function After(arrivals: seq<Arrival>): Table {
    if arrivals == [] then Empty() else Accepted(After(arrivals[..|arrivals| - 1]), arrivals[|arrivals| - 1])
  }

  function Creations(arrivals: seq<Arrival>): nat {
    if arrivals == [] then 0
    else Creations(arrivals[..|arrivals| - 1]) + (if arrivals[|arrivals| - 1].created then 1 else 0)
  }

  /** The number of clients is the number of threads that could be created, capped at the size of the table. */
  lemma {:induction false} NumClients(arrivals: seq<Arrival>)
    ensures After(arrivals).num == if Creations(arrivals) < 100 then Creations(arrivals) else 100
    ensures |After(arrivals).sockets| == 100
  {
    if arrivals != [] {
      NumClients(arrivals[..|arrivals| - 1]);
    }
  }

  /** Arrival i starts a thread, which is handed slot `SlotOf`. */
  predicate Starts(arrivals: seq<Arrival>, i: nat) {
    i < |arrivals| && arrivals[i].created && After(arrivals[..i]).num < MAX_CLIENTS
  }

  function SlotOf(arrivals: seq<Arrival>, i: nat): nat
    requires i <= |arrivals|
  {
    After(arrivals[..i]).num
  }

  /** However many connections come in between, a started thread finds in its slot the socket it was created for. */
  lemma {:induction false} SocketIsKept(arrivals: seq<Arrival>, i: nat)
    requires Starts(arrivals, i)
    ensures SlotOf(arrivals, i) < After(arrivals).num <= |After(arrivals).sockets| == 100
    ensures After(arrivals).sockets[SlotOf(arrivals, i)] == arrivals[i].socket
  {
    NumClients(arrivals);
    NumClients(arrivals[..|arrivals| - 1]);
    var front := arrivals[..|arrivals| - 1];
    if i < |front| {
      assert front[..i] == arrivals[..i];
      SocketIsKept(front, i);
    } else {
      assert front == arrivals[..i];
    }
  }

  /** Different threads are handed different slots. */
  lemma SlotsAreDistinct(arrivals: seq<Arrival>, i: nat, j: nat)
    requires i < j && Starts(arrivals, i) && Starts(arrivals, j)
    ensures SlotOf(arrivals, i) < SlotOf(arrivals, j)
  {
    var upTo := arrivals[..j];
    assert upTo[..i] == arrivals[..i];
    SocketIsKept(upTo, i);
  }

  class AcceptLoop {
    const clientSockets: array<int>
    var numClients: nat

    ghost predicate Valid()
      reads this, clientSockets
    {
      clientSockets.Length == MAX_CLIENTS && numClients <= MAX_CLIENTS
    }

    ghost function View(): Table
      reads this, clientSockets
    {
      Table(clientSockets[..], numClients)
    }

    constructor ()
      ensures Valid() && fresh(clientSockets) && View() == Empty()
    {
      clientSockets := new int[MAX_CLIENTS](_ => 0);
      numClients := 0;
      new;
      assert clientSockets[..] == seq(MAX_CLIENTS, _ => 0);
    }

    method Accept(a: Arrival) returns (rejected: bool)
      requires Valid()
      modifies this, clientSockets
      ensures Valid() && View() == Accepted(old(View()), a)
      ensures rejected <==> old(numClients) == 100
    {
      rejected := numClients >= MAX_CLIENTS;
      if numClients < MAX_CLIENTS {
        clientSockets[numClients] := a.socket;
        if a.created {
          numClients := numClients + 1;
        }
      }
    }

    /** Accepts a whole series; any thread started on the way reads its slot only after all of them. */
    method AcceptAll(arrivals: seq<Arrival>)
      requires Valid() && View() == Empty()
      modifies this, clientSockets
      ensures Valid() && View() == After(arrivals)
      ensures forall i: nat :: Starts(arrivals, i) ==>
                SlotOf(arrivals, i) < MAX_CLIENTS && clientSockets[SlotOf(arrivals, i)] == arrivals[i].socket
    {
      for k := 0 to |arrivals|
        invariant Valid() && View() == After(arrivals[..k])
      {
        assert arrivals[..k + 1][..k] == arrivals[..k];
        var rejected := Accept(arrivals[k]);
      }
      assert arrivals[..|arrivals|] == arrivals;
      forall i: nat | Starts(arrivals, i)
        ensures SlotOf(arrivals, i) < MAX_CLIENTS && clientSockets[SlotOf(arrivals, i)] == arrivals[i].socket
      {
        SocketIsKept(arrivals, i);
      }
    }
  }
}
