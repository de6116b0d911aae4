/** The running server: shared objects changed in place by `execute_command` and its
    handlers (src/commands.c), the transaction state of each client (src/transaction.c) and
    the registry (src/main.c).  Every method does to the objects what `Executor` says. */
module Server {
  import opened Text
  import opened Tokenizer
  import opened HashTable
  import opened TableLaws
  import opened Commands
  import opened DictHeap
  import opened Handlers
  import opened PubSub
  import opened Replication
  import opened Executor
  import opened Transactions
  import opened Lifecycle
  import opened Lines
  import opened KeyValues
  import opened Snapshot
  import opened Persistence

  /** `client_t`, as far as commands are concerned. */
  class Connection {
    const id: nat
    const socket: int
    var inTransaction: bool
    var transactionErrors: bool
    var queue: seq<string>
    var queueCapacity: nat

    /** `tx_init`. */
    constructor (id: nat, socket: int)
      ensures View() == Client(id, socket, false, false, []) && queueCapacity == 0
      ensures this.id == id && this.socket == socket
    {
      this.id, this.socket := id, socket;
      inTransaction, transactionErrors, queue, queueCapacity := false, false, [], 0;
    }

    function View(): Client
      reads this
    {
      Client(id, socket, inTransaction, transactionErrors, queue)
    }

    /** `tx_cleanup`. */
    method TxCleanup()
      modifies this
      ensures View() == Cleaned(old(View())) && queueCapacity == 0
    {
      inTransaction, transactionErrors, queue, queueCapacity := false, false, [], 0;
    }

    /** `tx_queue_command`: a full array is doubled, the first has ten places, and there is
        room for the line when it is stored. */
    method TxQueue(cmd: string)
      requires |queue| <= queueCapacity
      modifies this
      ensures View() == old(View()).(queue := old(queue) + [cmd]) && |queue| <= queueCapacity
      ensures queueCapacity ==
        if old(|queue|) < old(queueCapacity) then old(queueCapacity)
        else if old(queueCapacity) == 0 then 10 else 2 * old(queueCapacity)
    {
      if |queue| >= queueCapacity {
        queueCapacity := if queueCapacity == 0 then 10 else queueCapacity * 2;
      }
      assert |queue| < queueCapacity;
      queue := queue + [cmd];
    }
  }

  /** `dict_create` and `load_rdb_from_file`, whose result is not looked at. */
  method LoadedTable(initialSize: nat, file: File, now: nat) returns (d: Dict)
    ensures d.Valid() && fresh(d) && fresh(d.table) && fresh(d.repr)
    ensures Wf(Table(Empty(InitialSize(initialSize)), 0, 0, 0))
    ensures d.Model() == Load(Table(Empty(InitialSize(initialSize)), 0, 0, 0), file, now).table
  {
    hide Wf, Load, Contents, Dict.Shape, InitialSize, Empty;
    d := new Dict(initialSize);
    var _ := LoadFile(d, file, now);
  }

  class CrimsonCache {
    const db: Dict
    const hub: Hub
    const repl: ReplicaList
    const net: Network
    var clients: seq<Connection?>
    var nextId: nat
    var changes: nat

    ghost var views: seq<Option<Client>>
    ghost var connections: set<Connection>

    /** Every object a command may change. */
    ghost function Footprint(): set<object>
      reads this, db
    {
      {this, db, db.table, hub, repl, net} + db.repr + connections
    }

    ghost predicate Registered()
      reads this, connections
    {
      && |views| == |clients|
      && (forall i :: 0 <= i < |clients| ==> (clients[i] == null <==> views[i].None?))
      && (forall i :: 0 <= i < |clients| && clients[i] != null ==>
            && clients[i] in connections && clients[i].View() == views[i].value
            && |clients[i].queue| <= clients[i].queueCapacity)
    }

    ghost function Model(): World
      reads this, db, hub, repl, net
    {
      World(db.Model(), views, nextId, hub.channels, repl.Value(), changes, net.sent)
    }

    ghost predicate Valid()
      reads this, db, db.table, db.repr, hub, repl, net, connections
      ensures Valid() ==> Ok(Model())
    {
      && db.Valid() && Registered() && Ok(Model())
      && CleanQueues(views)
    }

    /** `main`'s set-up, snapshot included: a file that does not load leaves what it loaded. */
    constructor (initialSize: nat, maxClients: nat, file: File, now: nat)
      ensures Valid() && fresh(Footprint())
      ensures Model() == Boot(InitialSize(initialSize), maxClients, file, now)
    {
      hide Wf, Ok, Contents, Load, Dict.Shape, Dict.Valid, InitialSize, Empty, IsPow2, Boot, NoClients, CleanQueues;
      var table := LoadedTable(initialSize, file, now);
      db := table;
      hub := new Hub();
      repl := new ReplicaList();
      net := new Network();
      clients, nextId, changes := seq(maxClients, _ => null), 0, 0;
      views, connections := NoClients(maxClients), {};
      new;
      NoneRegistered(maxClients);
      SetUpOk(db.Model(), InitialSize(initialSize), maxClients, file, now);
    }

    /** `reply_*`: nothing leaves through a negative descriptor. */
    method Answer(sock: int, bytes: string)
      requires Valid()
      modifies net
      ensures Valid() && Model() == Reply(old(Model()), sock, bytes)
    {
      hide Wf, Ok;
      ReplyOk(Model(), sock, bytes);
      if sock >= 0 && bytes != "" { net.Write(sock, bytes, Full); }
    }

    /** `get_client_by_socket`. */
    method ClientAt(sock: int) returns (c: Connection?, ghost i: nat)
      requires Valid()
      ensures i == FindSlot(views, sock)
      ensures c == null <==> i == |clients|
      ensures c != null ==> i < |clients| && c == clients[i] && c in connections && c.socket == sock
      ensures ClientOf(Model(), sock) == if c == null then None else Some(c.View())
    {
      hide Wf, Ok;
      var k := 0;
      while k < |clients| && (clients[k] == null || clients[k].socket != sock)
        invariant k <= |clients|
        invariant forall m :: 0 <= m < k ==> views[m].None? || views[m].value.socket != sock
      {
        k := k + 1;
      }
      FindSlotIs(views, sock, k);
      if k < |clients| { SocketsUp(Model(), k); }
      i := k;
      c := if k < |clients| then clients[k] else null;
    }

    /** No connection stands in two slots. */
    lemma Apart(i: nat)
      requires Valid() && i < |clients| && clients[i] != null
      ensures forall k :: 0 <= k < |clients| && k != i ==> clients[k] != clients[i]
    {
      hide Wf, HubOk, SubsIn, Queueable, Dict.Shape;
    }

    /** The connection in slot i is the one its socket finds. */
    lemma Slot(i: nat)
      requires Valid() && i < |clients| && clients[i] != null
      ensures FindSlot(views, clients[i].socket) == i && ClientOf(Model(), clients[i].socket) == Some(clients[i].View())
      ensures forall k :: 0 <= k < |clients[i].queue| ==> Queueable(clients[i].queue[k]) && NulFree(clients[i].queue[k])
    {
      hide Wf, HubOk, SubsIn, Queueable, Dict.Shape;
      FindSlotIs(views, clients[i].socket, i);
      assert views[i].value == clients[i].View();
    }

    /** What a new transaction state of the client in slot i leaves in order. */
    lemma NewState(i: nat, v: Client)
      requires Valid() && i < |clients| && clients[i] != null
      requires v.id == clients[i].id && v.socket == clients[i].socket
      requires forall k :: 0 <= k < |v.queue| ==> Queueable(v.queue[k]) && NulFree(v.queue[k])
      ensures SetClient(Model(), v) == Model().(clients := views[i := Some(v)])
      ensures Ok(SetClient(Model(), v)) && CleanQueues(views[i := Some(v)])
    {
      hide Wf, Ok, Queueable, Dict.Shape, NulFree;
      Slot(i);
      SetClientOk(Model(), v);
    }

    /** MULTI raises the flag. */
    method BeginTransaction(c: Connection, ghost i: nat)
      requires Valid() && i < |clients| && clients[i] == c
      modifies c, this`views
      ensures Valid() && Model() == SetClient(old(Model()), old(c.View()).(inTransaction := true, errors := false))
      ensures c.View() == old(c.View()).(inTransaction := true, errors := false)
    {
      hide Wf, Ok, Queueable, Dict.Shape, SetClient, FindSlot, CleanQueues;
      Slot(i);
      Apart(i);
      NewState(i, c.View().(inTransaction := true, errors := false));
      c.inTransaction, c.transactionErrors := true, false;
      views := views[i := Some(c.View())];
    }

    /** `tx_cleanup` of a registered client. */
    method ResetTransaction(c: Connection, ghost i: nat)
      requires Valid() && i < |clients| && clients[i] == c
      modifies c, this`views
      ensures Valid() && Model() == SetClient(old(Model()), Cleaned(old(c.View())))
      ensures c.View() == Cleaned(old(c.View()))
    {
      hide Wf, Ok, Queueable, Dict.Shape, SetClient, FindSlot, CleanQueues;
      Slot(i);
      Apart(i);
      NewState(i, Cleaned(c.View()));
      c.TxCleanup();
      views := views[i := Some(c.View())];
    }

    /** `tx_queue_command` of a registered client. */
    method QueueLine(c: Connection, ghost i: nat, cmd: string)
      requires Valid() && i < |clients| && clients[i] == c && Queueable(cmd) && NulFree(cmd)
      modifies c, this`views
      ensures Valid() && Model() == SetClient(old(Model()), old(c.View()).(queue := old(c.queue) + [cmd]))
    {
      hide Wf, Ok, Queueable, Dict.Shape, SetClient, FindSlot, CleanQueues;
      Slot(i);
      Apart(i);
      NewState(i, c.View().(queue := c.queue + [cmd]));
      c.TxQueue(cmd);
      views := views[i := Some(c.View())];
    }

    /** The forced reset at the end of `exec_command`. */
    method ClearFlag(c: Connection, ghost i: nat)
      requires Valid() && i < |clients| && clients[i] == c
      modifies c, this`views
      ensures Valid() && Model() == SetClient(old(Model()), old(c.View()).(inTransaction := false))
    {
      hide Wf, Ok, Queueable, Dict.Shape, SetClient, FindSlot, CleanQueues;
      Slot(i);
      Apart(i);
      NewState(i, c.View().(inTransaction := false));
      c.inTransaction := false;
      views := views[i := Some(c.View())];
    }

    // ---------- the handlers ----------

    method Multi(sock: int) returns (ok: bool)
      requires Valid()
      modifies Footprint()
      ensures Valid() && clients == old(clients) && fresh(Footprint() - old(Footprint()))
      ensures Done(Model(), ok) == MultiCmd(old(Model()), sock)
    {
      hide Wf, Ok, Queueable, Dict.Shape, SetClient, ClientOf, Reply;
      var c, i := ClientAt(sock);
      ok := false;
      if c == null {
        Answer(sock, ReplyError("ERR client not found"));
      } else if c.inTransaction {
        Answer(sock, ReplyError("ERR MULTI calls can not be nested"));
      } else {
        BeginTransaction(c, i);
        Answer(sock, ReplyString("OK"));
        ok := true;
      }
    }

    method Discard(sock: int) returns (ok: bool)
      requires Valid()
      modifies Footprint()
      ensures Valid() && clients == old(clients) && fresh(Footprint() - old(Footprint()))
      ensures Done(Model(), ok) == DiscardCmd(old(Model()), sock)
    {
      hide Wf, Ok, Queueable, Dict.Shape, SetClient, ClientOf, Reply;
      var c, i := ClientAt(sock);
      ok := false;
      if c == null {
        Answer(sock, ReplyError("ERR client not found"));
      } else if !c.inTransaction {
        Answer(sock, ReplyError("ERR DISCARD without MULTI"));
      } else {
        ResetTransaction(c, i);
        Answer(sock, ReplyString("OK"));
        Answer(sock, ReplyString("OK"));
        ok := true;
      }
    }

    method KeyCommand(sock: int, argv: seq<string>, ctx: Context) returns (ok: bool)
      requires Valid() && IsKeyCommand(argv)
      modifies Footprint()
      ensures Valid() && clients == old(clients) && fresh(Footprint() - old(Footprint()))
      ensures Done(Model(), ok) == KeyCmd(old(Model()), sock, argv, ctx)
    {
      hide Wf, Ok, Queueable, Handle, Reply, WellCalled, HandlerOf;
      ghost var w := Model();
      var reply;
      reply, ok := HandleCommand(db, argv, ctx.env.now);
      NewDbOk(w, db.Model());
      Answer(sock, reply);
    }

    method ReplicaOf(sock: int, argv: seq<string>, ctx: Context) returns (ok: bool)
      requires Valid() && |argv| == 3
      modifies Footprint()
      ensures Valid() && clients == old(clients) && fresh(Footprint() - old(Footprint()))
      ensures Done(Model(), ok) == ReplicaOfCmd(old(Model()), sock, argv, ctx)
    {
      hide Wf, Ok, Queueable, Dict.Shape, Reply, Atoi;
      ghost var w := Model();
      ok := true;
      if Lower(argv[1]) == "no" && Lower(argv[2]) == "one" {
        repl.primary := true;
        NewSideOk(w, Model());
        Answer(sock, ReplyString("OK"));
        return;
      }
      var port := Atoi(argv[2]);
      if port <= 0 || port > 65535 {
        Answer(sock, ReplyError("ERR invalid port"));
        return false;
      }
      repl.primary := false;
      NewSideOk(w, Model());
      ok := ctx.connects;
      Answer(sock, if ok then ReplyString("OK") else ReplyError("ERR couldn't connect to primary"));
    }

    method ReplConf(sock: int, argv: seq<string>, ctx: Context) returns (ok: bool)
      requires Valid() && |argv| >= 2
      modifies Footprint()
      ensures Valid() && clients == old(clients) && fresh(Footprint() - old(Footprint()))
      ensures Done(Model(), ok) == ReplConfCmd(old(Model()), sock, argv, ctx)
    {
      hide Wf, Ok, Queueable, Dict.Shape, Reply, SyncWrites, Flatten;
      ghost var w := Model();
      if |argv| >= 3 && Lower(argv[1]) == "listening-port" {
        repl.AddReplica(sock, db, ctx.env, net);
        NewSideOk(w, Model());
      }
      Answer(sock, ReplyString("OK"));
      ok := true;
    }

    method SubscribeTo(sock: int, argv: seq<string>) returns (ok: bool)
      requires Valid() && |argv| >= 2
      modifies Footprint()
      ensures Valid() && clients == old(clients) && fresh(Footprint() - old(Footprint()))
      ensures Done(Model(), ok) == SubscribeCmd(old(Model()), sock, argv)
    {
      hide Wf, Ok, Queueable, Dict.Shape, Reply, ClientOf, SubscribeAll, SubscribeReplies;
      ghost var w := Model();
      var c, i := ClientAt(sock);
      if c == null {
        Answer(sock, ReplyError("err client not found for subscribe"));
        return false;
      }
      ClientIsRegistered(w, sock);
      NewChannelsOk(w, SubscribeAll(w.channels, c.id, argv[1..]), c.id, argv);
      var replies := hub.SubscribeClient(c.id, argv[1..]);
      Answer(sock, replies);
      ok := true;
    }

    method UnsubscribeFrom(sock: int, argv: seq<string>) returns (ok: bool)
      requires Valid() && |argv| >= 1
      modifies Footprint()
      ensures Valid() && clients == old(clients) && fresh(Footprint() - old(Footprint()))
      ensures Done(Model(), ok) == UnsubscribeCmd(old(Model()), sock, argv)
    {
      hide Wf, Ok, Queueable, Dict.Shape, Reply, ClientOf, UnsubscribeClient;
      ghost var w := Model();
      var c, i := ClientAt(sock);
      if c == null {
        Answer(sock, ReplyError("err client not found for unsubscribe"));
        return false;
      }
      NewChannelsOk(w, UnsubscribeClient(w.channels, c.id, argv[1..]).0, c.id, argv);
      var replies := hub.UnsubscribeClientFrom(c.id, argv[1..]);
      Answer(sock, replies);
      ok := true;
    }

    /** The client a subscription points to. */
    method ClientById(id: nat) returns (c: Connection?)
      requires Valid() && id in Ids(views)
      ensures c != null && FindId(views, id) < |views| && c.View() == views[FindId(views, id)].value
    {
      hide Wf, Ok, Queueable, Dict.Shape;
      var k := 0;
      assert FindId(views, id) < |views|;
      while clients[k] == null || clients[k].id != id
        invariant k <= FindId(views, id)
        decreases |clients| - k
      {
        assert k != FindId(views, id);
        k := k + 1;
      }
      c := clients[k];
      assert views[k].value.id == id;
    }

    /** The loop over the subscribers of a channel. */
    method DeliverAll(to: seq<nat>, message: string)
      requires Valid() && forall s :: s in to ==> s in Ids(views)
      modifies net
      ensures Valid() && net.sent == old(net.sent) + Deliver(views, to, message)
    {
      hide Wf, Ok, Queueable, Dict.Shape, Ids, Deliver;
      if to != [] {
        DeliverStep(views, to, message);
        ghost var w := Model();
        var c := ClientById(to[0]);
        net.Write(c.socket, message, Full);
        NewSideOk(w, Model());
        DeliverAll(to[1..], message);
      } else {
        DeliverStep(views, to, message);
      }
    }

    method Publish(sock: int, argv: seq<string>) returns (ok: bool)
      requires Valid() && |argv| == 3
      modifies Footprint()
      ensures Valid() && clients == old(clients) && fresh(Footprint() - old(Footprint()))
      ensures Done(Model(), ok) == PublishCmd(old(Model()), sock, argv)
    {
      hide Wf, Ok, Queueable, Dict.Shape, Reply, Message, Ids, Deliver, Receivers;
      ReceiversLive(Model(), argv[1]);
      var to := hub.Publish(argv[1]);
      DeliverAll(to, Message(argv[1], argv[2]));
      Answer(sock, ReplyInteger(|to|));
      ok := true;
    }

    method Ping(sock: int, argv: seq<string>) returns (ok: bool)
      requires Valid() && |argv| >= 1
      modifies Footprint()
      ensures Valid() && clients == old(clients) && fresh(Footprint() - old(Footprint()))
      ensures Done(Model(), ok) == PingCmd(old(Model()), sock, argv)
    {
      hide Wf, Ok, CrimsonCache.Valid, Reply, ReplyBulk;
      ok := true;
      Say(sock, if |argv| > 1 then ReplyBulk(argv[1]) else ReplyString("PONG"));
    }

    /** The reply of SAVE; what it does to the disk is `Persistence.Save`. */
    method SaveOutcome(sock: int, ctx: Context) returns (ok: bool)
      requires Valid()
      modifies Footprint()
      ensures Valid() && clients == old(clients) && fresh(Footprint() - old(Footprint()))
      ensures Done(Model(), ok) == SaveCmd(old(Model()), sock, ctx)
    {
      hide Wf, Ok, CrimsonCache.Valid, Reply;
      ok := ctx.saves;
      Say(sock, if ok then ReplyString("OK") else ReplyError("ERR failed to save db"));
    }

    /** The reply of BGSAVE. */
    method ForkOutcome(sock: int, ctx: Context) returns (ok: bool)
      requires Valid()
      modifies Footprint()
      ensures Valid() && clients == old(clients) && fresh(Footprint() - old(Footprint()))
      ensures Done(Model(), ok) == BgSaveCmd(old(Model()), sock, ctx)
    {
      hide Wf, Ok, CrimsonCache.Valid, Reply;
      ok := ctx.forks;
      Say(sock, if ok then ReplyString("Background saving started") else ReplyError("ERR failed to start background save"));
    }

    method Role(sock: int, ctx: Context) returns (ok: bool)
      requires Valid()
      modifies Footprint()
      ensures Valid() && clients == old(clients) && fresh(Footprint() - old(Footprint()))
      ensures Done(Model(), ok) == RoleCmd(old(Model()), sock, ctx)
    {
      hide Wf, Ok, CrimsonCache.Valid, Reply;
      ok := true;
      Say(sock, ctx.role);
    }

    /** The handlers of everything that is not about keys. */
    method OtherHandler(sock: int, argv: seq<string>, ctx: Context) returns (ok: bool)
      requires Valid() && WellCalled(argv) && !IsKeyHandler(HandlerOf(argv)) && HandlerOf(argv) != CmdExec
      modifies Footprint()
      ensures Valid() && clients == old(clients) && fresh(Footprint() - old(Footprint()))
      ensures Done(Model(), ok) == OtherCommand(old(Model()), sock, argv, ctx)
    {
      hide Wf, Ok, CrimsonCache.Valid, Reply, WellCalled, HandlerOf, MultiCmd, DiscardCmd, SubscribeCmd, UnsubscribeCmd,
        PublishCmd, ReplicaOfCmd, ReplConfCmd, PingCmd, SaveCmd, BgSaveCmd, RoleCmd;
      ok := true;
      var h := HandlerOf(argv);
      if h == CmdPing {
        ok := Ping(sock, argv);
      } else if h == CmdSave {
        ok := SaveOutcome(sock, ctx);
      } else if h == CmdBgSave {
        ok := ForkOutcome(sock, ctx);
      } else if h == CmdRole {
        ok := Role(sock, ctx);
      } else if h == CmdReplicaOf {
        ok := ReplicaOf(sock, argv, ctx);
      } else if h == CmdReplConf {
        ok := ReplConf(sock, argv, ctx);
      } else if h == CmdMulti {
        ok := Multi(sock);
      } else if h == CmdDiscard {
        ok := Discard(sock);
      } else if h == CmdSubscribe {
        ok := SubscribeTo(sock, argv);
      } else if h == CmdUnsubscribe {
        ok := UnsubscribeFrom(sock, argv);
      } else {
        ok := Publish(sock, argv);
      }
    }

    // ---------- execute_command ----------

    method Say(sock: int, bytes: string)
      requires Valid()
      modifies Footprint()
      ensures Valid() && clients == old(clients) && fresh(Footprint() - old(Footprint()))
      ensures Model() == Reply(old(Model()), sock, bytes)
    {
      Answer(sock, bytes);
    }

    /** Inside a transaction the line is queued. */
    method EnqueueLine(sock: int, c: Connection, ghost i: nat, input: string)
      requires Valid() && i < |clients| && clients[i] == c && c in connections && c.socket == sock
      requires Queueable(input) && NulFree(input) && ClientOf(Model(), sock) == Some(c.View())
      modifies Footprint()
      ensures Valid() && clients == old(clients) && fresh(Footprint() - old(Footprint()))
      ensures Model() == Enqueue(old(Model()), sock, input)
    {
      hide Wf, Ok, Queueable, Dict.Shape, Reply, SetClient, ClientOf;
      QueueLine(c, i, input);
      Answer(sock, ReplyString("QUEUED"));
    }

    /** Running a command and propagating it. */
    method RunAndPropagate(sock: int, argv: seq<string>, input: string, ctx: Context)
      requires Valid() && WellCalled(argv) && Lower(argv[0]) != "exec"
      modifies Footprint()
      ensures Valid() && clients == old(clients) && fresh(Footprint() - old(Footprint()))
      ensures Model() == Executor.Dispatch(old(Model()), sock, argv, input, ctx)
    {
      hide Wf, Ok, CrimsonCache.Valid, WellCalled, HandlerOf, KeyCmd, OtherCommand, ClientOf, Propagate, Lower, IsWriteName;
      var ok;
      if IsKeyHandler(HandlerOf(argv)) {
        ok := KeyCommand(sock, argv, ctx);
      } else {
        ok := OtherHandler(sock, argv, ctx);
      }
      var c, i := ClientAt(sock);
      if ok && (c == null || !c.inTransaction) && repl.primary && sock >= 0 && IsWriteName(Lower(argv[0])) {
        PropagateLine(input, ctx);
      }
    }

    /** `track_command_change` and `replication_feed_slaves`. */
    method PropagateLine(input: string, ctx: Context)
      requires Valid()
      modifies this`changes, repl, net
      ensures Valid() && Model() == Propagate(old(Model()), input, ctx)
    {
      hide Wf, Ok, Queueable, Dict.Shape, Feed;
      ghost var w := Model();
      changes := changes + 1;
      repl.FeedReplicas(input, ctx.env, net);
      NewSideOk(w, Model());
    }

    /** `execute_command`. */
    method ExecuteCommand(sock: int, input: string, ctx: Context)
      requires Valid() && NulFree(input)
      modifies Footprint()
      ensures Valid() && clients == old(clients) && fresh(Footprint() - old(Footprint()))
      ensures Model() == Execute(old(Model()), sock, input, ctx)
      decreases if Name(input) == "exec" then 2 else 0, 3
    {
      hide Wf, Ok, CrimsonCache.Valid, Execute, Tokens, Name;
      var argv := Split(input);
      Route(sock, argv, input, ctx);
    }

    /** The tokens in hand, the client is looked up. */
    method Route(sock: int, argv: seq<string>, input: string, ctx: Context)
      requires Valid() && NulFree(input) && argv == Tokens(input)
      modifies Footprint()
      ensures Valid() && clients == old(clients) && fresh(Footprint() - old(Footprint()))
      ensures Model() == Execute(old(Model()), sock, input, ctx)
      decreases if Name(input) == "exec" then 2 else 0, 2, 1
    {
      hide Wf, Ok, CrimsonCache.Valid, Execute, Tokens, Name, ClientOf;
      var c, i := ClientAt(sock);
      RouteFor(sock, c, i, argv, input, ctx);
    }

    /** Refuse, queue or run the line. */
    method RouteFor(sock: int, c: Connection?, ghost i: nat, argv: seq<string>, input: string, ctx: Context)
      requires Valid() && NulFree(input) && argv == Tokens(input)
      requires ClientOf(Model(), sock) == if c == null then None else Some(c.View())
      requires c != null ==> i < |clients| && clients[i] == c && c in connections && c.socket == sock
      modifies Footprint()
      ensures Valid() && clients == old(clients) && fresh(Footprint() - old(Footprint()))
      ensures Model() == Execute(old(Model()), sock, input, ctx)
      decreases if Name(input) == "exec" then 2 else 0, 2, 0
    {
      hide Wf, Ok, CrimsonCache.Valid, Reply, Executor.Dispatch, Enqueue, Tokens, CommandTable, ClientOf, Lower, ExecCmd,
        Execute, Name, Queueable, IsTxName;
      EmptyOrQueued(Model(), sock, input, ctx);
      if argv == [] {
        Say(sock, ReplyError("err empty command"));
      } else if c != null && c.inTransaction && !IsTxName(Lower(argv[0])) {
        EnqueueLine(sock, c, i, input);
      } else {
        RunNow(sock, argv, input, ctx);
      }
    }

    /** The part of `execute_command` after the decision not to queue. */
    method RunNow(sock: int, argv: seq<string>, input: string, ctx: Context)
      requires Valid() && argv == Tokens(input) && argv != []
      requires InTransaction(Model(), sock) != Some(true) || IsTxName(Name(input))
      modifies Footprint()
      ensures Valid() && clients == old(clients) && fresh(Footprint() - old(Footprint()))
      ensures Model() == Execute(old(Model()), sock, input, ctx)
      decreases if Name(input) == "exec" then 2 else 0, 1
    {
      hide Wf, Ok, CrimsonCache.Valid, CleanQueues, Dict.Shape, Reply, Executor.Dispatch, Enqueue, Tokens, CommandTable,
        ClientOf, Lower, ExecCmd;
      var name := Lower(argv[0]);
      var def := CommandTable(name);
      if def.None? {
        Say(sock, ReplyError("err unknown command"));
      } else if !Fits(def.value, |argv|) {
        Say(sock, ReplyError("err wrong number of arguments"));
      } else if name == "exec" {
        Exec(sock, ctx);
      } else {
        RunAndPropagate(sock, argv, input, ctx);
      }
    }

    /** The line is copied, and the copy cut into words. */
    method Split(input: string) returns (argv: seq<string>)
      requires NulFree(input)
      ensures argv == Tokens(input)
    {
      hide Tokens;
      var copy := new char[|input| + 1](k => if 0 <= k < |input| then input[k] else NUL);
      ghost var s := copy[..];
      assert s[|input|] == NUL && s[..|input|] == input;
      CStrAt(s, |input|);
      argv := Tokenizer.Tokenize(copy);
    }

    /** `exec_command`. */
    method Exec(sock: int, ctx: Context)
      requires Valid()
      modifies Footprint()
      ensures Valid() && clients == old(clients) && fresh(Footprint() - old(Footprint()))
      ensures Model() == ExecCmd(old(Model()), sock, ctx)
      decreases 2, 0, 1
    {
      hide Wf, Ok, CrimsonCache.Valid, ClientOf, ExecCmd;
      var c, i := ClientAt(sock);
      ExecFor(sock, c, i, ctx);
    }

    method ExecFor(sock: int, c: Connection?, ghost i: nat, ctx: Context)
      requires Valid()
      requires ClientOf(Model(), sock) == if c == null then None else Some(c.View())
      requires c != null ==> i < |clients| && clients[i] == c && c in connections && c.socket == sock
      modifies Footprint()
      ensures Valid() && clients == old(clients) && fresh(Footprint() - old(Footprint()))
      ensures Model() == ExecCmd(old(Model()), sock, ctx)
      decreases 2, 0, 0
    {
      hide Wf, Ok, CrimsonCache.Valid, Reply, ClientOf, ExecCmd;
      ExecRefused(Model(), sock, ctx);
      if c == null {
        Say(sock, ReplyError("ERR client not found"));
      } else if !c.inTransaction {
        Say(sock, ReplyError("ERR EXEC without MULTI"));
      } else {
        Commit(sock, c, i, ctx);
      }
    }

    /** `exec_command` inside a transaction. */
    method Commit(sock: int, c: Connection, ghost i: nat, ctx: Context)
      requires Valid() && i < |clients| && clients[i] == c && c in connections && c.inTransaction
      requires ClientOf(Model(), sock) == Some(c.View())
      modifies Footprint()
      ensures Valid() && clients == old(clients) && fresh(Footprint() - old(Footprint()))
      ensures Model() == ExecCmd(old(Model()), sock, ctx)
      decreases 1, |c.queue| + 2
    {
      hide Wf, Ok, CrimsonCache.Valid, CleanQueues, Dict.Shape, Reply, SetClient, ClientOf, Queueable, RunQueue,
        ExecHeader, ExecCmd, ForceReset;
      ExecRuns(Model(), sock, ctx);
      if c.transactionErrors {
        Abort(sock, c, i);
      } else {
        RunTransaction(sock, c, i, ctx);
        ForceDown(sock);
      }
    }

    /** `tx_execute_commands` after an error while queueing. */
    method Abort(sock: int, c: Connection, ghost i: nat)
      requires Valid() && i < |clients| && clients[i] == c && c in connections
      modifies Footprint()
      ensures Valid() && clients == old(clients) && fresh(Footprint() - old(Footprint()))
      ensures Model() == Reply(SetClient(old(Model()), Cleaned(old(c.View()))), sock,
                               ReplyError("EXECABORT Transaction discarded because of previous errors"))
    {
      hide Wf, Ok, Dict.Shape, Reply, SetClient, Queueable;
      ResetTransaction(c, i);
      Answer(sock, ReplyError("EXECABORT Transaction discarded because of previous errors"));
    }

    /** `tx_execute_commands`: the queue is copied and the state reset before the first
        line runs. */
    method RunTransaction(sock: int, c: Connection, ghost i: nat, ctx: Context)
      requires Valid() && i < |clients| && clients[i] == c && c in connections
      modifies Footprint()
      ensures Valid() && clients == old(clients) && fresh(Footprint() - old(Footprint()))
      ensures forall k :: 0 <= k < |old(c.queue)| ==> Queueable(old(c.queue)[k])
      ensures Ok(Reply(SetClient(old(Model()), Cleaned(old(c.View()))), sock, ExecHeader(old(c.queue))))
      ensures Model() ==
        RunQueue(Reply(SetClient(old(Model()), Cleaned(old(c.View()))), sock, ExecHeader(old(c.queue))),
                 sock, old(c.queue), PerLine(ctx, |old(c.queue)|))
      decreases 1, |c.queue| + 1
    {
      hide Wf, Ok, CrimsonCache.Valid, CrimsonCache.Model, Reply, SetClient, Queueable, NulFree, RunQueue, ExecHeader, PerLine,
        Name, Tokens, Cleaned, ClientOf;
      Slot(i);
      var commands := c.queue;
      OpenTransaction(sock, c, i);
      RunCommands(sock, commands, PerLine(ctx, |commands|));
    }

    /** The state is reset and the header sent. */
    method OpenTransaction(sock: int, c: Connection, ghost i: nat)
      requires Valid() && i < |clients| && clients[i] == c && c in connections
      modifies Footprint()
      ensures Valid() && clients == old(clients) && fresh(Footprint() - old(Footprint()))
      ensures Model() == Reply(SetClient(old(Model()), Cleaned(old(c.View()))), sock, ExecHeader(old(c.queue)))
    {
      hide Wf, Ok, CrimsonCache.Valid, Reply, SetClient, ExecHeader;
      var n := c.queue;
      ResetTransaction(c, i);
      Answer(sock, ExecHeader(n));
    }

    /** The end of `exec_command`. */
    method ForceDown(sock: int)
      requires Valid()
      modifies Footprint()
      ensures Valid() && clients == old(clients) && fresh(Footprint() - old(Footprint()))
      ensures Model() == ForceReset(old(Model()), sock)
    {
      hide Wf, Ok, CrimsonCache.Registered, CleanQueues, Dict.Shape, SetClient, ClientOf, Queueable;
      var c, i := ClientAt(sock);
      if c != null && c.inTransaction {
        ClearFlag(c, i);
      }
    }

    /** The loop over the copied queue. */
    method RunCommands(sock: int, commands: seq<string>, ctxs: seq<Context>)
      requires Valid() && forall k :: 0 <= k < |commands| ==> Queueable(commands[k]) && NulFree(commands[k])
      requires |ctxs| == |commands|
      modifies Footprint()
      ensures Valid() && clients == old(clients) && fresh(Footprint() - old(Footprint()))
      ensures Model() == RunQueue(old(Model()), sock, commands, ctxs)
      decreases 1, |commands|
    {
      hide Wf, Ok, CrimsonCache.Valid, CrimsonCache.Model, Execute, Queueable, NulFree, RunQueue, Name, Tokens;
      ghost var w := Model();
      var k := 0;
      assert commands[0..] == commands && ctxs[0..] == ctxs;
      while k < |commands|
        invariant k <= |commands| && Valid() && clients == old(clients) && fresh(Footprint() - old(Footprint()))
        invariant RunQueue(Model(), sock, commands[k..], ctxs[k..]) == RunQueue(w, sock, commands, ctxs)
      {
        RunQueueAt(Model(), sock, commands, ctxs, k);
        ExecuteCommand(sock, commands[k], ctxs[k]);
        k := k + 1;
      }
      RunQueueStep(Model(), sock, commands[k..], ctxs[k..]);
    }

    // ---------- connections and background work ----------

    /** What registering a client does, slot found or not. */
    lemma PlaceFor(socket: int)
      requires Valid() && Possible(Model(), Accept(socket))
      ensures Ok(Register(Model(), socket))
      ensures var k := FreeSlot(views); var v := Client(nextId, socket, false, false, []);
        if k < |views| then
          && Register(Model(), socket) == Model().(nextId := nextId + 1, clients := views[k := Some(v)])
          && CleanQueues(views[k := Some(v)])
        else Register(Model(), socket) == Model().(nextId := nextId + 1)
    {
      hide Wf, Ok, Dict.Shape, NulFree;
      RegisterOk(Model(), socket);
    }

    /** `tx_init` and `register_client`; a full registry loses the client. */
    method RegisterClient(socket: int) returns (c: Connection)
      requires Valid() && Possible(Model(), Accept(socket))
      modifies this
      ensures Valid() && fresh(c) && c.View() == Client(old(nextId), socket, false, false, [])
      ensures Model() == Register(old(Model()), socket) && fresh(Footprint() - old(Footprint()))
    {
      hide Wf, Ok, Queueable, Dict.Shape, Register, FreeSlot, CleanQueues, Possible;
      PlaceFor(socket);
      c := new Connection(nextId, socket);
      nextId := nextId + 1;
      var k := 0;
      while k < |clients| && clients[k] != null
        invariant k <= |clients| && forall m :: 0 <= m < k ==> views[m].Some?
      {
        k := k + 1;
      }
      FreeSlotIs(views, k);
      if k < |clients| {
        clients, views, connections := clients[k := c], views[k := Some(c.View())], connections + {c};
      }
    }

    /** `pubsub_remove_client` and `unregister_client`, in that order. */
    method DisconnectClient(sock: int)
      requires Valid()
      modifies Footprint()
      ensures Valid() && Model() == Disconnect(old(Model()), sock) && fresh(Footprint() - old(Footprint()))
    {
      hide Wf, Ok, Queueable, Dict.Shape, RemoveClient, AllReplies;
      ghost var w := Model();
      DisconnectOk(w, sock);
      var c, i := ClientAt(sock);
      if c == null { return; }
      Slot(i);
      RemovedOk(w, c.id);
      var replies := hub.DetachEverywhere(c.id);
      Unregister(c, i);
    }

    /** `unregister_client`. */
    method Unregister(c: Connection, ghost i: nat)
      requires Valid() && i < |clients| && clients[i] == c
      requires Ok(Model().(clients := views[i := None]))
      modifies c, this`clients, this`views
      ensures Valid() && Model() == old(Model()).(clients := old(views)[i := None])
    {
      hide Wf, Ok, Queueable, Dict.Shape;
      Apart(i);
      var k := 0;
      while clients[k] != c
        invariant k <= i
        decreases i - k
      {
        k := k + 1;
      }
      c.TxCleanup();
      clients, views := clients[k := null], views[k := None];
    }

    /** One round of `cleanup_expired_keys`. */
    method SweepExpired(now: nat)
      requires Valid()
      modifies Footprint()
      ensures Valid() && Model() == Step(old(Model()), Tick(now)) && fresh(Footprint() - old(Footprint()))
    {
      hide Wf, Ok, Queueable, Sweep;
      ghost var w := Model();
      StepOk(w, Tick(now));
      db.DictClearExpired(now);
    }

    /** One successful read of the replication thread: every complete line is executed, with
        no client behind it. */
    method ReplicaRead(reader: LineReader, bytes: string, ctx: Context)
      requires Valid() && reader.Valid() && 0 < |bytes| <= reader.capacity - reader.bufferPos - 1 && NulFree(bytes)
      modifies Footprint(), reader, reader.buffer
      ensures Valid() && reader.Valid() && clients == old(clients) && fresh(Footprint() - old(Footprint()))
      ensures var all := SplitLines(old(reader.Tail()) + bytes);
        var lines := NonEmpty(all.lines);
        && reader.Tail() == all.tail
        && Model() == RunLines(old(Model()), lines, PerLine(ctx, |lines|))
    {
      hide Wf, Ok, CrimsonCache.Valid, CleanQueues, Dict.Shape, Execute, SplitLines, NonEmpty, RunLines,
        LineReader.Valid, LineReader.Tail;
      assert reader !in Footprint() && reader.buffer !in Footprint();
      LinesNulFree(reader.Tail() + bytes);
      var lines := reader.Receive(bytes);
      ConsumeLines(lines, PerLine(ctx, |lines|));
    }

    method ConsumeLines(lines: seq<string>, ctxs: seq<Context>)
      requires Valid() && |ctxs| == |lines| && forall k :: 0 <= k < |lines| ==> NulFree(lines[k])
      modifies Footprint()
      ensures Valid() && clients == old(clients) && fresh(Footprint() - old(Footprint()))
      ensures Model() == RunLines(old(Model()), lines, ctxs)
    {
      hide Wf, Ok, CrimsonCache.Valid, CrimsonCache.Model, Execute, NulFree, RunLines, Name, Tokens;
      ghost var w := Model();
      var k := 0;
      assert lines[0..] == lines && ctxs[0..] == ctxs;
      while k < |lines|
        invariant k <= |lines| && Valid() && clients == old(clients) && fresh(Footprint() - old(Footprint()))
        invariant RunLines(Model(), lines[k..], ctxs[k..]) == RunLines(w, lines, ctxs)
      {
        RunLinesAt(Model(), lines, ctxs, k);
        ExecuteCommand(-1, lines[k], ctxs[k]);
        k := k + 1;
      }
      RunLinesStep(Model(), lines[k..], ctxs[k..]);
    }
  }

  /** Queued lines are C strings. */
  ghost predicate CleanQueues(views: seq<Option<Client>>) {
    forall i, k :: 0 <= i < |views| && views[i].Some? && 0 <= k < |views[i].value.queue| ==> NulFree(views[i].value.queue[k])
  }

  function NoClients(n: nat): seq<Option<Client>> { seq(n, _ => None) }

  lemma NoneRegistered(n: nat)
    ensures |NoClients(n)| == n && forall i :: 0 <= i < n ==> NoClients(n)[i].None?
  {}

  lemma SetUpOk(t: Table, size: nat, maxClients: nat, file: File, now: nat)
    requires IsPow2(size) && size >= 4 && Wf(Table(Empty(size), 0, 0, 0))
    requires t == Load(Table(Empty(size), 0, 0, 0), file, now).table
    ensures Boot(size, maxClients, file, now) == World(t, NoClients(maxClients), 0, [], Link(true, [], 0), 0, [])
    ensures Ok(Boot(size, maxClients, file, now)) && CleanQueues(NoClients(maxClients))
  {
    hide Wf, Ok, Load, IsPow2;
    BootOk(size, maxClients, file, now);
  }

  lemma SocketsUp(w: World, k: nat)
    requires Ok(w) && k < |w.clients|
    ensures w.clients[k].Some? ==> w.clients[k].value.socket >= 0
  {}

  lemma NewDbOk(w: World, db: Table)
    requires Ok(w) && Wf(db)
    ensures Ok(w.(db := db))
  {}

  lemma NewSideOk(w: World, w': World)
    requires Ok(w) && w' == w.(link := w'.link, sent := w'.sent, changes := w'.changes)
    ensures Ok(w')
  {
    SideOk(w, w'.link, w'.sent, w'.changes);
  }

  lemma NewChannelsOk(w: World, channels: seq<Channel>, id: nat, argv: seq<string>)
    requires Ok(w) && |argv| >= 1
    requires channels == UnsubscribeClient(w.channels, id, argv[1..]).0
          || (id in Ids(w.clients) && channels == SubscribeAll(w.channels, id, argv[1..]))
    ensures Ok(w.(channels := channels))
  {
    hide Wf, ClientsOk, HubOk, SubsIn, Ids;
    UnsubscribeClientOk(w.channels, id, argv[1..], Ids(w.clients));
    if id in Ids(w.clients) { SubscribeAllOk(w.channels, id, argv[1..], Ids(w.clients)); }
  }

  lemma DeliverStep(clients: seq<Option<Client>>, ids: seq<nat>, message: string)
    requires forall s :: s in ids ==> s in Ids(clients)
    ensures ids == [] ==> Deliver(clients, ids, message) == []
    ensures ids != [] ==>
      && FindId(clients, ids[0]) < |clients| && (forall s :: s in ids[1..] ==> s in Ids(clients))
      && Deliver(clients, ids, message) ==
         [Sent(clients[FindId(clients, ids[0])].value.socket, message)] + Deliver(clients, ids[1..], message)
  {
    if ids != [] {
      assert ids[0] in Ids(clients);
      assert forall s :: s in ids[1..] ==> s in ids;
    }
  }

  lemma EmptyOrQueued(w: World, sock: int, input: string, ctx: Context)
    requires Ok(w)
    ensures Tokens(input) == [] ==> Execute(w, sock, input, ctx) == Reply(w, sock, ReplyError("err empty command"))
    ensures Tokens(input) != [] ==> Name(input) == Lower(Tokens(input)[0])
    ensures Tokens(input) != [] && !IsTxName(Name(input)) ==> Queueable(input)
    ensures Tokens(input) != [] && InTransaction(w, sock) == Some(true) && !IsTxName(Name(input)) ==>
      Execute(w, sock, input, ctx) == Enqueue(w, sock, input)
  {
    hide Ok, Reply, Enqueue, Executor.Dispatch, CommandTable, ClientOf, ExecCmd, Lower, Tokens;
  }

  lemma RunQueueAt(w: World, sock: int, queue: seq<string>, ctxs: seq<Context>, k: nat)
    requires Ok(w) && |ctxs| == |queue| && k < |queue| && forall k :: 0 <= k < |queue| ==> Queueable(queue[k])
    ensures Name(queue[k]) != "exec"
    ensures RunQueue(w, sock, queue[k..], ctxs[k..]) ==
            RunQueue(Execute(w, sock, queue[k], ctxs[k]), sock, queue[k + 1..], ctxs[k + 1..])
  {
    hide Ok, Execute, RunQueue, Name, Tokens;
    assert Queueable(queue[k]);
    assert queue[k..][1..] == queue[k + 1..] && ctxs[k..][1..] == ctxs[k + 1..];
    RunQueueStep(w, sock, queue[k..], ctxs[k..]);
  }

  lemma ExecRefused(w: World, sock: int, ctx: Context)
    requires Ok(w)
    ensures ClientOf(w, sock).None? ==> ExecCmd(w, sock, ctx) == Reply(w, sock, ReplyError("ERR client not found"))
    ensures ClientOf(w, sock).Some? && !ClientOf(w, sock).value.inTransaction ==>
      ExecCmd(w, sock, ctx) == Reply(w, sock, ReplyError("ERR EXEC without MULTI"))
  {
    hide Ok, Reply, RunQueue, ExecHeader, Queueable, SetClient;
  }

  lemma ExecRuns(w: World, sock: int, ctx: Context)
    requires Ok(w) && ClientOf(w, sock).Some? && ClientOf(w, sock).value.inTransaction
    ensures
      var c := ClientOf(w, sock).value;
      var clean := SetClient(w, Cleaned(c));
      if c.errors then
        ExecCmd(w, sock, ctx) == Reply(clean, sock, ReplyError("EXECABORT Transaction discarded because of previous errors"))
      else
        && (forall k :: 0 <= k < |c.queue| ==> Queueable(c.queue[k])) && Ok(Reply(clean, sock, ExecHeader(c.queue)))
        && ExecCmd(w, sock, ctx) ==
           ForceReset(RunQueue(Reply(clean, sock, ExecHeader(c.queue)), sock, c.queue, PerLine(ctx, |c.queue|)), sock)
  {
    hide Ok, Reply, RunQueue, ExecHeader, Queueable, SetClient;
    var c := ClientOf(w, sock).value;
    ClientIsRegistered(w, sock);
    SetClientOk(w, Cleaned(c));
    ReplyOk(SetClient(w, Cleaned(c)), sock, ExecHeader(c.queue));
  }

  lemma FreeSlotIs(clients: seq<Option<Client>>, i: nat)
    requires i <= |clients| && (i < |clients| ==> clients[i].None?) && forall k :: 0 <= k < i ==> clients[k].Some?
    ensures FreeSlot(clients) == i
  {}

  lemma RunLinesStep(w: World, lines: seq<string>, ctxs: seq<Context>)
    requires Ok(w) && |ctxs| == |lines|
    ensures lines == [] ==> RunLines(w, lines, ctxs) == w
    ensures lines != [] ==>
      RunLines(w, lines, ctxs) == RunLines(Execute(w, -1, lines[0], ctxs[0]), lines[1..], ctxs[1..])
  {
    hide Ok, Execute;
  }

  lemma RunLinesAt(w: World, lines: seq<string>, ctxs: seq<Context>, k: nat)
    requires Ok(w) && |ctxs| == |lines| && k < |lines|
    ensures RunLines(w, lines[k..], ctxs[k..]) == RunLines(Execute(w, -1, lines[k], ctxs[k]), lines[k + 1..], ctxs[k + 1..])
  {
    hide Ok, Execute, RunLines;
    assert lines[k..][1..] == lines[k + 1..] && ctxs[k..][1..] == ctxs[k + 1..];
    RunLinesStep(w, lines[k..], ctxs[k..]);
  }

  lemma {:induction false} LinesNulFree(s: string)
    requires NulFree(s)
    ensures forall k :: 0 <= k < |NonEmpty(SplitLines(s).lines)| ==> NulFree(NonEmpty(SplitLines(s).lines)[k])
    decreases |s|
  {
    hide SplitLines, NonEmpty, FindCrlf;
    FirstLine(s);
    var i := FindCrlf(s);
    if i < |s| {
      LinesNulFree(s[i + 2..]);
      NonEmptyAppend([s[..i]], SplitLines(s[i + 2..]).lines);
      OneLine(s[..i]);
    } else {
      EmptyDone();
    }
  }

  lemma RemovedOk(w: World, id: nat)
    requires Ok(w)
    ensures Ok(w.(channels := RemoveClient(w.channels, id)))
  {
    hide Wf, ClientsOk, HubOk, Ids;
    RemoveClientOk(w.channels, id, Ids(w.clients));
  }
}
