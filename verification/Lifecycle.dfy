/** Whole runs of the server: connections come and go, lines arrive, stale keys are swept
    (src/main.c, src/eventloop.c, src/pubsub.c). */
module Lifecycle {
  import opened Text
  import opened HashTable
  import opened TableLaws
  import opened Commands
  import opened PubSub
  import opened Replication
  import opened Executor
  import opened Transactions
  import opened Snapshot

  datatype Event =
    | Accept(socket: int)
    | Line(socket: int, input: string, ctx: Context)
    | Hangup(socket: int)
    | Tick(now: nat)

  function FreeSlot(clients: seq<Option<Client>>): (i: nat)
    ensures i <= |clients|
    ensures i < |clients| ==> clients[i].None?
    ensures forall k :: 0 <= k < i ==> clients[k].Some?
  {
    if clients == [] || clients[0].None? then 0 else 1 + FreeSlot(clients[1..])
  }

  /** `register_client` with the fields `tx_init` sets.  A full registry drops the client
      silently: it stays connected but unknown. */
  function Register(w: World, socket: int): World {
    var i := FreeSlot(w.clients);
    var w' := w.(nextId := w.nextId + 1);
    if i < |w.clients| then w'.(clients := w.clients[i := Some(Client(w.nextId, socket, false, false, []))]) else w'
  }

  /** `pubsub_remove_client`, then `unregister_client`. */
  function Disconnect(w: World, socket: int): World {
    var i := FindSlot(w.clients, socket);
    if i < |w.clients| then
      w.(channels := RemoveClient(w.channels, w.clients[i].value.id), clients := w.clients[i := None])
    else w
  }

  /** The operating system hands out descriptors that no open connection has. */
  predicate Possible(w: World, ev: Event) {
    ev.Accept? ==> ev.socket >= 0 && FindSlot(w.clients, ev.socket) == |w.clients|
  }

  function Step(w: World, ev: Event): World
    requires Ok(w) && Possible(w, ev)
  {
    match ev
    case Accept(s) => Register(w, s)
    case Line(s, input, ctx) => Execute(w, s, input, ctx)
    case Hangup(s) => Disconnect(w, s)
    case Tick(now) => w.(db := Sweep(w.db, now))
  }

  lemma RegisterOk(w: World, socket: int)
    requires Ok(w) && socket >= 0 && FindSlot(w.clients, socket) == |w.clients|
    ensures Ok(Register(w, socket))
    ensures ClientOf(Register(w, socket), socket) ==
      if exists i :: 0 <= i < |w.clients| && w.clients[i].None? then Some(Client(w.nextId, socket, false, false, [])) else None
    ensures forall other :: other != socket ==> ClientOf(Register(w, socket), other) == ClientOf(w, other)
  {
    hide Ok, ClientOf, Register, FindSlot;
    RegisteredFound(w, socket);
    RegisterKeeps(w, socket);
  }

  lemma RegisterKeeps(w: World, socket: int)
    requires Ok(w) && socket >= 0 && FindSlot(w.clients, socket) == |w.clients|
    ensures Ok(Register(w, socket))
  {
    hide Wf, HubOk, Queueable, SubsIn, Ids;
    var w' := Register(w, socket);
    MoreIds(w.clients, FreeSlot(w.clients), Client(w.nextId, socket, false, false, []));
    SubsInMore(w.channels, Ids(w.clients), Ids(w'.clients));
  }

  lemma MoreIds(clients: seq<Option<Client>>, i: nat, c: Client)
    requires i < |clients| ==> clients[i].None?
    ensures i < |clients| ==> Ids(clients) <= Ids(clients[i := Some(c)])
  {
    if i < |clients| {
      var clients' := clients[i := Some(c)];
      forall id | id in Ids(clients) ensures id in Ids(clients') {
        var k :| 0 <= k < |clients| && clients[k].Some? && clients[k].value.id == id;
        assert clients'[k].Some? && clients'[k].value.id == id;
      }
    }
  }

  /** With a free slot the new client is found by its socket; everybody else as before. */
  lemma RegisteredFound(w: World, socket: int)
    requires socket >= 0 && FindSlot(w.clients, socket) == |w.clients|
    ensures ClientOf(Register(w, socket), socket) ==
      if exists i :: 0 <= i < |w.clients| && w.clients[i].None? then Some(Client(w.nextId, socket, false, false, [])) else None
    ensures forall other :: other != socket ==> ClientOf(Register(w, socket), other) == ClientOf(w, other)
  {
    hide FindSlot, FreeSlot;
    var k := FreeSlot(w.clients);
    var clients := Register(w, socket).clients;
    if k < |w.clients| {
      FindSlotIs(clients, socket, k);
      forall other | other != socket ensures ClientOf(Register(w, socket), other) == ClientOf(w, other) {
        var i := FindSlot(w.clients, other);
        FindSlotIs(clients, other, i);
      }
    }
  }

  lemma SubsInMore(channels: seq<Channel>, ids: set<nat>, more: set<nat>)
    requires SubsIn(channels, ids) && ids <= more
    ensures SubsIn(channels, more)
  {}

  /** A client that hangs up leaves the registry and every channel, and no one else does. */
  lemma DisconnectOk(w: World, socket: int)
    requires Ok(w)
    ensures Ok(Disconnect(w, socket))
    ensures FindSlot(w.clients, socket) < |w.clients| ==>
      var id := w.clients[FindSlot(w.clients, socket)].value.id;
      && Ids(Disconnect(w, socket).clients) == Ids(w.clients) - {id}
      && forall c, s :: 0 <= c < |w.channels| ==>
           (s in Disconnect(w, socket).channels[c].subs <==> s in w.channels[c].subs && s != id)
  {
    hide Wf, HubOk, Queueable, SubsIn;
    var i := FindSlot(w.clients, socket);
    if i < |w.clients| {
      var id := w.clients[i].value.id;
      RemoveClientOk(w.channels, id, Ids(w.clients));
      IdsWithout(w.clients, w.nextId, i);
    }
  }

  lemma IdsWithout(clients: seq<Option<Client>>, nextId: nat, i: nat)
    requires ClientsOk(clients, nextId) && i < |clients| && clients[i].Some?
    ensures Ids(clients[i := None]) == Ids(clients) - {clients[i].value.id}
  {
    hide Queueable;
    var r := clients[i := None];
    forall id | id in Ids(clients) - {clients[i].value.id} ensures id in Ids(r) {
      var k :| 0 <= k < |clients| && clients[k].Some? && clients[k].value.id == id;
      assert r[k].Some? && r[k].value.id == id;
    }
    forall id | id in Ids(r) ensures id in Ids(clients) - {clients[i].value.id} {
      var k :| 0 <= k < |r| && r[k].Some? && r[k].value.id == id;
      assert clients[k].Some? && clients[k].value.id == id;
    }
  }

  lemma StepOk(w: World, ev: Event)
    requires Ok(w) && Possible(w, ev)
    ensures Ok(Step(w, ev))
  {
    hide Wf, HubOk, ClientsOk, SubsIn, Ids, Register, Disconnect, Execute, Sweep;
    match ev
    case Accept(s) => RegisterOk(w, s);
    case Line(s, input, ctx) =>
    case Hangup(s) => DisconnectOk(w, s);
    case Tick(now) => SweepLaw(w.db, now);
  }

  /** The world after `main` has set everything up: the table holds what the snapshot file,
      whatever is in it, loads; that loading failed changes nothing else. */
  function Boot(size: nat, maxClients: nat, file: File, now: nat): World
    requires IsPow2(size) && size >= 4
  {
    EmptyLaw(size, 0);
    World(Load(Table(Empty(size), 0, 0, 0), file, now).table, seq(maxClients, _ => None), 0, [], Link(true, [], 0), 0, [])
  }

  /** The worlds a run of events leads through.  A step is defined on worlds that meet the
      invariant; that every world of a run does is what `Reachable` shows. */
  ghost predicate IsRun(worlds: seq<World>, events: seq<Event>) {
    && |worlds| == |events| + 1
    && forall i :: 0 <= i < |events| ==>
         Possible(worlds[i], events[i]) && (Ok(worlds[i]) ==> worlds[i + 1] == Step(worlds[i], events[i]))
  }

  lemma BootOk(size: nat, maxClients: nat, file: File, now: nat)
    requires IsPow2(size) && size >= 4
    ensures Ok(Boot(size, maxClients, file, now)) && Boot(size, maxClients, file, now).db.limit == 0
    ensures Rested(Boot(size, maxClients, file, now).clients)
  {
    hide Wf, Load;
    EmptyLaw(size, 0);
  }

  lemma StepRested(w: World, ev: Event)
    requires Ok(w) && Possible(w, ev) && Rested(w.clients)
    ensures Rested(Step(w, ev).clients)
  {
    hide Ok, Execute, FindSlot, FreeSlot;
    match ev
    case Accept(s) =>
    case Line(s, input, ctx) => ExecuteRested(w, s, input, ctx);
    case Hangup(s) =>
    case Tick(now) =>
  }

  /** In every world reachable from a start with any snapshot file the table is well
      formed, no queue holds a transaction command, nothing is queued outside a
      transaction, sockets and identities are distinct, channel names are unique, nobody is
      twice in a channel, and every subscriber is a registered client. */
  lemma {:induction false} Reachable(worlds: seq<World>, events: seq<Event>, size: nat, maxClients: nat,
                                     file: File, now: nat, k: nat)
    requires IsPow2(size) && size >= 4
    requires IsRun(worlds, events) && worlds[0] == Boot(size, maxClients, file, now) && k < |worlds|
    ensures Ok(worlds[k]) && Rested(worlds[k].clients)
  {
    hide Ok, Step, IsPow2, Boot, Rested;
    if k == 0 {
      BootOk(size, maxClients, file, now);
    } else {
      Reachable(worlds, events, size, maxClients, file, now, k - 1);
      assert worlds[(k - 1) + 1] == Step(worlds[k - 1], events[k - 1]);
      StepOk(worlds[k - 1], events[k - 1]);
      StepRested(worlds[k - 1], events[k - 1]);
    }
  }

  /** PUBLISH writes the message once to the socket of each subscriber and replies with
      their number. */
  lemma PublishExact(w: World, sock: int, argv: seq<string>)
    requires Ok(w) && |argv| == 3
    ensures var to := Receivers(w.channels, argv[1]);
      && |to| == |Members(to)|
      && (forall s :: s in to <==> Subscribed(w.channels, s, argv[1]))
      && (forall s :: s in to ==> s in Ids(w.clients))
      && |Deliver(w.clients, to, Message(argv[1], argv[2]))| == |to|
      && (forall k :: 0 <= k < |to| ==>
            FindId(w.clients, to[k]) < |w.clients| &&
            Deliver(w.clients, to, Message(argv[1], argv[2]))[k] ==
            Sent(w.clients[FindId(w.clients, to[k])].value.socket, Message(argv[1], argv[2])))
      && PublishCmd(w, sock, argv).world.sent ==
         w.sent + Deliver(w.clients, to, Message(argv[1], argv[2])) + (if sock < 0 then [] else [Sent(sock, ReplyInteger(|to|))])
  {
    hide Wf, ClientsOk, Decimal, Message, Ids;
    var to := Receivers(w.channels, argv[1]);
    assert NoRepeats(to);
    DistinctCount(to);
    ReceiversLive(w, argv[1]);
    DeliverEach(w.clients, to, Message(argv[1], argv[2]));
  }

  ghost function Members(ids: seq<nat>): set<nat> { set s | s in ids }

  lemma {:induction false} DistinctCount(ids: seq<nat>)
    requires NoRepeats(ids)
    ensures |Members(ids)| == |ids|
  {
    if ids != [] {
      var n := |ids| - 1;
      DistinctCount(ids[..n]);
      assert ids == ids[..n] + [ids[n]];
      assert Members(ids) == Members(ids[..n]) + {ids[n]} && ids[n] !in Members(ids[..n]);
    }
  }

  lemma {:induction false} DeliverEach(clients: seq<Option<Client>>, ids: seq<nat>, message: string)
    requires forall s :: s in ids ==> s in Ids(clients)
    ensures |Deliver(clients, ids, message)| == |ids|
    ensures forall k :: 0 <= k < |ids| ==>
      FindId(clients, ids[k]) < |clients| &&
      Deliver(clients, ids, message)[k] == Sent(clients[FindId(clients, ids[k])].value.socket, message)
  {
    if ids != [] {
      assert ids[0] in Ids(clients);
      DeliverEach(clients, ids[1..], message);
      forall k | 0 <= k < |ids|
        ensures FindId(clients, ids[k]) < |clients| &&
          Deliver(clients, ids, message)[k] == Sent(clients[FindId(clients, ids[k])].value.socket, message)
      {
        if k > 0 { assert ids[k] == ids[1..][k - 1]; }
      }
    }
  }
}
