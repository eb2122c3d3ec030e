/**
 * The status publisher of src/interfaces/ws.ts: the last broadcast message,
 * the connected WebSocket clients and the keep-alive sweep.
 *
 * Messages are values: two payloads are the same message exactly when their
 * JSON texts are equal, which for these records is equality of the values.
 * A client is what the server knows of a connection: its flag, the frames
 * it was sent and the number of pings it received.
 */
module Publisher {
  import opened Wrappers
  import opened StatusDerivation

  /** A text frame: a plain string or the JSON of a record. */
  datatype Message =
    | Text(text: string)
    | StatusJson(status: Lighting)
    | EffectsJson(effects: seq<string>)

  /** One connection, named by the order in which it arrived. */
  datatype Client = Client(id: nat, alive: bool, inbox: seq<Message>, pings: nat)

  const NO_BULBS: string := "No Bulbs Detected!"
  const PING: string := "ping"

  /** JavaScript truthiness of `lastMessage`: set, and not the empty string. */
  predicate HasLastMessage(m: Option<Message>) {
    m.Some? && m.value != Text("")
  }

  /** Every client, in order, with `m` appended to what it was sent. */
  function Deliver(clients: seq<Client>, m: Message): (r: seq<Client>)
    ensures |r| == |clients|
    ensures forall k :: 0 <= k < |r| ==> r[k] == clients[k].(inbox := clients[k].inbox + [m])
  {
    seq(|clients|, k requires 0 <= k < |clients| => clients[k].(inbox := clients[k].inbox + [m]))
  }

  /**
   * `sendToClients` on (lastMessage, clients): a message equal to the last
   * one is dropped; any other reaches every client and becomes the last.
   */
  function AfterSend(last: Option<Message>, clients: seq<Client>, data: Message): (r: (Option<Message>, seq<Client>))
    ensures last == Some(data) ==> r == (last, clients)
    ensures last != Some(data) ==> r == (Some(data), Deliver(clients, data))
  {
    if last == Some(data) then (last, clients) else (Some(data), Deliver(clients, data))
  }

  /** After a send, the last message is the data sent, whether or not it was broadcast. */
  lemma SendSetsLast(last: Option<Message>, clients: seq<Client>, data: Message)
    ensures AfterSend(last, clients, data).0 == Some(data)
  {
  }

  /** Two consecutive identical payloads produce exactly one broadcast. */
  lemma RepeatedSendIsSilent(last: Option<Message>, clients: seq<Client>, data: Message)
    ensures var once := AfterSend(last, clients, data);
      AfterSend(once.0, once.1, data) == once
  {
  }

  /** How many frames of `cs` equal `m`. */
  function Occurrences(cs: seq<Message>, m: Message): nat {
    if cs == [] then 0
    else (if cs[|cs| - 1] == m then 1 else 0) + Occurrences(cs[..|cs| - 1], m)
  }

  /** However often `data` is sent in a row, each client receives it at most once more. */
  lemma {:induction false} SendsInARowDeliverOnce(last: Option<Message>, clients: seq<Client>, data: Message, n: nat)
    requires n >= 1
    ensures var r := SendRepeatedly(last, clients, data, n);
      && |r.1| == |clients|
      && forall k :: 0 <= k < |clients| ==>
           Occurrences(r.1[k].inbox, data) == Occurrences(clients[k].inbox, data) + (if last == Some(data) then 0 else 1)
  {
    if n == 1 {
      forall k | 0 <= k < |clients|
        ensures Occurrences(AfterSend(last, clients, data).1[k].inbox, data)
             == Occurrences(clients[k].inbox, data) + (if last == Some(data) then 0 else 1)
      {
        if last != Some(data) {
          var inbox := clients[k].inbox + [data];
          assert inbox[..|inbox| - 1] == clients[k].inbox;
        }
      }
    } else {
      SendsInARowDeliverOnce(last, clients, data, n - 1);
      var r := SendRepeatedly(last, clients, data, n - 1);
      SendSetsLast(last, clients, data);
      assert SendRepeatedly(last, clients, data, n) == AfterSend(r.0, r.1, data);
      assert r.0 == Some(data) by {
        if n - 1 > 1 {
          var p := SendRepeatedly(last, clients, data, n - 2);
          SendSetsLast(p.0, p.1, data);
        }
      }
    }
  }

  /** `data` sent n times in a row. */
  function SendRepeatedly(last: Option<Message>, clients: seq<Client>, data: Message, n: nat): (Option<Message>, seq<Client>)
    decreases n
  {
    if n == 0 then (last, clients)
    else
      var before := SendRepeatedly(last, clients, data, n - 1);
      AfterSend(before.0, before.1, data)
  }

  /**
   * `sendStatus`: the "no bulbs" notice when there is no first bulb or no
   * lighting status yet, otherwise `{status: lighting}`.
   */
  function StatusMessage(hasBulb: bool, lighting: Option<Lighting>): (m: Message)
    ensures m == Text(NO_BULBS) <==> !hasBulb || lighting.None?
    ensures hasBulb && lighting.Some? ==> m == StatusJson(lighting.value)
  {
    if !hasBulb || lighting.None? then Text(NO_BULBS) else StatusJson(lighting.value)
  }

  /** The sweep's effect on one client: a silent client is terminated, any other is flagged and pinged. */
  function SweepOne(c: Client): (r: seq<Client>)
    ensures |r| <= 1
    ensures r == [] <==> !c.alive
    ensures c.alive ==> r == [c.(alive := false, pings := c.pings + 1, inbox := c.inbox + [Text(PING)])]
  {
    if !c.alive then []
    else [c.(alive := false, pings := c.pings + 1, inbox := c.inbox + [Text(PING)])]
  }

  /** The clients left by a sweep over `clients`, in order. */
  function Swept(clients: seq<Client>): seq<Client> {
    if clients == [] then []
    else Swept(clients[..|clients| - 1]) + SweepOne(clients[|clients| - 1])
  }

  /** Whether a client with this id is connected. */
  ghost predicate Connected(clients: seq<Client>, id: nat) {
    exists k :: 0 <= k < |clients| && clients[k].id == id
  }

  /** Whether the client with this id is connected and answered since the last sweep. */
  ghost predicate ConnectedAndAlive(clients: seq<Client>, id: nat) {
    exists k :: 0 <= k < |clients| && clients[k].id == id && clients[k].alive
  }

  /**
   * A sweep keeps exactly the clients whose flag was set, each once pinged
   * and sent "ping", with the flag cleared.
   */
  lemma {:induction false} SweptClients(clients: seq<Client>)
    ensures forall k :: 0 <= k < |Swept(clients)| ==> !Swept(clients)[k].alive
    ensures forall id :: Connected(Swept(clients), id) <==> ConnectedAndAlive(clients, id)
    decreases |clients|
  {
    if clients != [] {
      var init := clients[..|clients| - 1];
      var c := clients[|clients| - 1];
      SweptClients(init);
      var r := Swept(clients);
      assert r == Swept(init) + SweepOne(c);
      forall id ensures Connected(r, id) <==> ConnectedAndAlive(clients, id) {
        if Connected(r, id) {
          var k :| 0 <= k < |r| && r[k].id == id;
          if k < |Swept(init)| {
            assert Connected(Swept(init), id);
            var j :| 0 <= j < |init| && init[j].id == id && init[j].alive;
            assert clients[j] == init[j];
          } else {
            assert clients[|clients| - 1].id == id && clients[|clients| - 1].alive;
          }
        }
        if ConnectedAndAlive(clients, id) {
          var j :| 0 <= j < |clients| && clients[j].id == id && clients[j].alive;
          if j < |init| {
            assert init[j] == clients[j];
            assert ConnectedAndAlive(init, id);
            var k :| 0 <= k < |Swept(init)| && Swept(init)[k].id == id;
            assert r[k] == Swept(init)[k];
          } else {
            assert r[|r| - 1].id == id;
          }
        }
      }
    }
  }

  /** Ids that only grow along the sequence. */
  ghost predicate IncreasingIds(clients: seq<Client>) {
    forall i, j :: 0 <= i < j < |clients| ==> clients[i].id < clients[j].id
  }

  /** A sweep keeps only clients that were there, so it keeps the ids increasing and bounded. */
  lemma {:induction false} SweptKeepsIds(clients: seq<Client>, bound: nat)
    requires IncreasingIds(clients)
    requires forall k :: 0 <= k < |clients| ==> clients[k].id < bound
    ensures IncreasingIds(Swept(clients))
    ensures forall k :: 0 <= k < |Swept(clients)| ==> Swept(clients)[k].id < bound
    decreases |clients|
  {
    if clients != [] {
      var init := clients[..|clients| - 1];
      var c := clients[|clients| - 1];
      SweptKeepsIds(init, c.id);
      SweptKeepsIds(init, bound);
    }
  }

  /** The pong handler of client `id`, applied to the client list. */
  function Ponged(clients: seq<Client>, id: nat): (r: seq<Client>)
    ensures |r| == |clients|
    ensures forall k :: 0 <= k < |r| ==> r[k] == if clients[k].id == id then clients[k].(alive := true) else clients[k]
  {
    seq(|clients|, k requires 0 <= k < |clients| => if clients[k].id == id then clients[k].(alive := true) else clients[k])
  }

  /** A run of pongs, in order. */
  function PongedAll(clients: seq<Client>, ids: seq<nat>): (r: seq<Client>)
    decreases |ids|
  {
    if ids == [] then clients else PongedAll(Ponged(clients, ids[0]), ids[1..])
  }

  /** Pongs change only flags: a client is alive after them iff it was, or it answered. */
  lemma {:induction false} PongedAllFlags(clients: seq<Client>, ids: seq<nat>)
    ensures |PongedAll(clients, ids)| == |clients|
    ensures forall k :: 0 <= k < |clients| ==>
      PongedAll(clients, ids)[k] == clients[k].(alive := clients[k].alive || clients[k].id in ids)
    decreases |ids|
  {
    if ids != [] {
      PongedAllFlags(Ponged(clients, ids[0]), ids[1..]);
      forall k | 0 <= k < |clients|
        ensures PongedAll(clients, ids)[k] == clients[k].(alive := clients[k].alive || clients[k].id in ids)
      {
        assert clients[k].id in ids <==> clients[k].id == ids[0] || clients[k].id in ids[1..];
      }
    }
  }

  /**
   * Between two sweeps: a client still connected after the second one is
   * exactly a survivor of the first that answered a ping in between.
   */
  lemma SurvivesNextSweepIffAnswered(clients: seq<Client>, pongs: seq<nat>, id: nat)
    ensures Connected(Swept(PongedAll(Swept(clients), pongs)), id)
        <==> Connected(Swept(clients), id) && id in pongs
  {
    var first := Swept(clients);
    var mid := PongedAll(first, pongs);
    SweptClients(clients);
    PongedAllFlags(first, pongs);
    SweptClients(mid);
    if ConnectedAndAlive(mid, id) {
      var k :| 0 <= k < |mid| && mid[k].id == id && mid[k].alive;
      assert first[k].id == id;
    }
    if Connected(first, id) && id in pongs {
      var k :| 0 <= k < |first| && first[k].id == id;
      assert mid[k].id == id && mid[k].alive;
    }
  }

  /** The WebSocket server's state. */
  class Hub {
    /** `lastMessage`: the last message broadcast, unset at start. */
    var lastMessage: Option<Message>
    /** `wsServer.clients`, in connection order. */
    var clients: seq<Client>
    /** The id the next connection gets. */
    var nextId: nat

    ghost predicate Valid()
      reads this
    {
      && IncreasingIds(clients)
      && (forall k :: 0 <= k < |clients| ==> clients[k].id < nextId)
    }

    constructor ()
      ensures Valid()
      ensures lastMessage == None && clients == [] && nextId == 0
    {
      lastMessage := None;
      clients := [];
      nextId := 0;
    }

    /** `sendToClients`: broadcast unless equal to the last message, then remember it. */
    method SendToClients(data: Message)
      requires Valid()
      modifies this
      ensures Valid() && nextId == old(nextId)
      ensures (lastMessage, clients) == AfterSend(old(lastMessage), old(clients), data)
    {
      if lastMessage == Some(data) {
        return;
      }
      var i := 0;
      var out: seq<Client> := [];
      while i < |clients|
        invariant 0 <= i <= |clients|
        invariant out == Deliver(clients[..i], data)
      {
        assert clients[..i + 1] == clients[..i] + [clients[i]];
        out := out + [clients[i].(inbox := clients[i].inbox + [data])];
        i := i + 1;
      }
      assert clients[..i] == clients;
      clients := out;
      lastMessage := Some(data);
    }

    /** `sendStatus`, given whether a first bulb exists and the current `status.lighting`. */
    method SendStatus(hasBulb: bool, lighting: Option<Lighting>)
      requires Valid()
      modifies this
      ensures Valid() && nextId == old(nextId)
      ensures (lastMessage, clients) == AfterSend(old(lastMessage), old(clients), StatusMessage(hasBulb, lighting))
    {
      if !hasBulb || lighting.None? {
        SendToClients(Text(NO_BULBS));
        return;
      }
      SendToClients(StatusJson(lighting.value));
    }

    /**
     * A new connection: it is sent the list of loaded effects, then the last
     * message if there is one, and starts out alive.
     */
    method OnConnection(effects: seq<string>) returns (id: nat)
      requires Valid()
      modifies this
      ensures Valid() && lastMessage == old(lastMessage)
      ensures id == old(nextId) && nextId == id + 1
      ensures clients == old(clients)
        + [Client(id, true, [EffectsJson(effects)] + (if HasLastMessage(lastMessage) then [lastMessage.value] else []), 0)]
    {
      var inbox := [EffectsJson(effects)];
      if HasLastMessage(lastMessage) {
        inbox := inbox + [lastMessage.value];
      } else {
        assert inbox == inbox + [];
      }
      id := nextId;
      clients := clients + [Client(id, true, inbox, 0)];
      nextId := nextId + 1;
    }

    /** The pong handler of connection `id`: it is alive again. */
    method Pong(id: nat)
      requires Valid()
      modifies this
      ensures Valid() && lastMessage == old(lastMessage) && nextId == old(nextId)
      ensures clients == Ponged(old(clients), id)
    {
      clients := Ponged(clients, id);
    }

    /**
     * The keep-alive sweep: every client that did not answer since the last
     * sweep is terminated; every other one has its flag cleared, is pinged
     * and is sent "ping".
     */
    method Sweep()
      requires Valid()
      modifies this
      ensures Valid() && lastMessage == old(lastMessage) && nextId == old(nextId)
      ensures clients == Swept(old(clients))
      ensures forall k :: 0 <= k < |clients| ==> !clients[k].alive
      ensures forall id :: Connected(clients, id) <==> ConnectedAndAlive(old(clients), id)
    {
      var out: seq<Client> := [];
      for i := 0 to |clients|
        invariant out == Swept(clients[..i])
      {
        assert clients[..i + 1][..i] == clients[..i];
        var c := clients[i];
        if c.alive {
          out := out + [c.(alive := false, pings := c.pings + 1, inbox := c.inbox + [Text(PING)])];
        }
      }
      assert clients[..|clients|] == clients;
      SweptClients(clients);
      SweptKeepsIds(clients, nextId);
      clients := out;
    }
  }
}
