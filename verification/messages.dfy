/**
 * The WebSocket side of bridge.js as data: connected clients with their
 * `readyState`, the messages the server sends, and the log of deliveries
 * that `broadcast` and the direct `send` calls produce.
 */
module Messages {
  import opened Wrappers
  import opened AliasTable

  /** Identity of one connected socket. */
  type ClientId = nat

  /** `WebSocket.CONNECTING`, `OPEN`, `CLOSING`, `CLOSED`. */
  datatype ReadyState = Connecting | Open | Closing | Closed

  datatype Client = Client(id: ClientId, state: ReadyState)

  /** Server-to-browser messages (the objects passed to `JSON.stringify`). */
  datatype Outgoing =
    | AliasesUpdate(data: Table)
    | CardRead(uid: string, knownName: Option<string>)
    | SaveSuccess
    | Error(message: string)

  /** One message sent to one socket. */
  datatype Delivery = Delivery(to: ClientId, msg: Outgoing)

  /** Every socket in the server's client set is a distinct object. */
  predicate DistinctIds(cs: seq<Client>)
  {
    forall i, j :: 0 <= i < j < |cs| ==> cs[i].id != cs[j].id
  }

  function Ids(cs: seq<Client>): set<ClientId>
  {
    set c | c in cs :: c.id
  }

  /**
   * The deliveries made by `broadcast(m)`: the client set is walked in
   * insertion order and `m` goes to each client whose state is OPEN.
   */
  function BroadcastLog(cs: seq<Client>, m: Outgoing): (r: seq<Delivery>)
    ensures |r| <= |cs|
    ensures forall d :: d in r ==> d.msg == m && Client(d.to, Open) in cs
    decreases |cs|
  {
    if cs == [] then []
    else
      var init, last := cs[..|cs| - 1], cs[|cs| - 1];
      assert cs == init + [last];
      BroadcastLog(init, m) + (if last.state == Open then [Delivery(last.id, m)] else [])
  }

  /** `if (clientWs) clientWs.send(m)`: a reply to the originating socket, if one was given. */
  function Ack(origin: Option<ClientId>, m: Outgoing): seq<Delivery>
  {
    if origin.Some? then [Delivery(origin.value, m)] else []
  }

  /** The messages that one client receives from a delivery log, in order. */
  function Received(log: seq<Delivery>, id: ClientId): (r: seq<Outgoing>)
    ensures |r| <= |log|
    ensures forall x :: x in r ==> Delivery(id, x) in log
    decreases |log|
  {
    if log == [] then []
    else
      var init, last := log[..|log| - 1], log[|log| - 1];
      assert log == init + [last];
      Received(init, id) + (if last.to == id then [last.msg] else [])
  }

  /** What a client receives from two logs in sequence is what it receives from each, in order. */
  lemma {:induction false} ReceivedAppend(a: seq<Delivery>, b: seq<Delivery>, id: ClientId)
    ensures Received(a + b, id) == Received(a, id) + Received(b, id)
    decreases |b|
  {
    if b == [] {
      assert a + b == a;
    } else {
      var ab := a + b;
      assert ab[..|ab| - 1] == a + b[..|b| - 1];
      assert ab[|ab| - 1] == b[|b| - 1];
      ReceivedAppend(a, b[..|b| - 1], id);
    }
  }

  /** A log with no delivery addressed to `id` gives `id` nothing. */
  lemma {:induction false} ReceivedNothing(log: seq<Delivery>, id: ClientId)
    requires forall i :: 0 <= i < |log| ==> log[i].to != id
    ensures Received(log, id) == []
    decreases |log|
  {
    if log != [] {
      ReceivedNothing(log[..|log| - 1], id);
    }
  }

  /**
   * `broadcast` reaches exactly the OPEN clients, each exactly once: a client
   * receives `[m]` when it is in the set with state OPEN and nothing otherwise.
   */
  lemma {:induction false} BroadcastReceived(cs: seq<Client>, m: Outgoing, id: ClientId)
    requires DistinctIds(cs)
    ensures Received(BroadcastLog(cs, m), id) == if Client(id, Open) in cs then [m] else []
    decreases |cs|
  {
    if cs != [] {
      var init, last := cs[..|cs| - 1], cs[|cs| - 1];
      var tail := if last.state == Open then [Delivery(last.id, m)] else [];
      assert BroadcastLog(cs, m) == BroadcastLog(init, m) + tail;
      BroadcastReceived(init, m, id);
      ReceivedAppend(BroadcastLog(init, m), tail, id);
      SingleReceived(tail, last, m, id);
      LastIdNotEarlier(cs, id);
      if last == Client(id, Open) {
        assert Client(id, Open) !in init;
        assert Received(BroadcastLog(cs, m), id) == [] + [m];
      } else {
        assert Received(tail, id) == [];
        assert Received(BroadcastLog(cs, m), id) == Received(BroadcastLog(init, m), id);
      }
    }
  }

  /** What one client receives from the delivery, if any, to the last client of a set. */
  lemma SingleReceived(tail: seq<Delivery>, last: Client, m: Outgoing, id: ClientId)
    requires tail == if last.state == Open then [Delivery(last.id, m)] else []
    ensures Received(tail, id) == if last == Client(id, Open) then [m] else []
  {
  }

  /** In a set of distinct sockets, the last one's id occurs nowhere earlier. */
  lemma LastIdNotEarlier(cs: seq<Client>, id: ClientId)
    requires DistinctIds(cs) && cs != []
    ensures DistinctIds(cs[..|cs| - 1])
    ensures Client(id, Open) in cs <==> Client(id, Open) in cs[..|cs| - 1] || cs[|cs| - 1] == Client(id, Open)
    ensures cs[|cs| - 1].id == id ==> Client(id, Open) !in cs[..|cs| - 1]
  {
  }

  /** A reply reaches the originating socket only. */
  lemma AckReceived(origin: Option<ClientId>, m: Outgoing, id: ClientId)
    ensures Received(Ack(origin, m), id) == if origin == Some(id) then [m] else []
  {
  }
}
