/** The server as one state machine: clients, transactions, dispatch and propagation
    (src/commands.c, src/transaction.c, the client registry of src/main.c). */
module Executor {
  import opened Text
  import opened Tokenizer
  import opened HashTable
  import opened TableLaws
  import opened Commands
  import opened PubSub
  import opened Replication

  // ---------- state ----------

  datatype Client = Client(id: nat, socket: int, inTransaction: bool, errors: bool, queue: seq<string>)

  /** `clients` is the registry with its fixed number of slots; `sent` is everything
      written to sockets so far. */
  datatype World = World(
    db: Table,
    clients: seq<Option<Client>>,
    nextId: nat,
    channels: seq<Channel>,
    link: Link,
    changes: nat,
    sent: seq<Sent>)

  /** What the command at hand finds outside: the clock and the replicas' sockets, and how
      saving, forking and connecting turn out; the ROLE text.  When several lines run in one
      go, `lines` is what each of them finds. */
  datatype Context =
    Context(env: Env, saves: bool, forks: bool, connects: bool, role: string, lines: seq<Context>)

  /** What the first n lines find; any sequence of contexts can be given. */
  function PerLine(ctx: Context, n: nat): (ctxs: seq<Context>)
    ensures |ctxs| == n
    ensures |ctx.lines| == n ==> ctxs == ctx.lines
  {
    seq(n, k requires 0 <= k < n => if k < |ctx.lines| then ctx.lines[k] else ctx)
  }

  function Reply(w: World, sock: int, bytes: string): World {
    if sock < 0 || bytes == "" then w else w.(sent := w.sent + [Sent(sock, bytes)])
  }

  /** `get_client_by_socket`: the first slot with that socket. */
  function FindSlot(clients: seq<Option<Client>>, sock: int): (i: nat)
    ensures i <= |clients|
    ensures i < |clients| ==> clients[i].Some? && clients[i].value.socket == sock
    ensures forall k :: 0 <= k < i ==> clients[k].None? || clients[k].value.socket != sock
  {
    if clients == [] || (clients[0].Some? && clients[0].value.socket == sock) then 0 else 1 + FindSlot(clients[1..], sock)
  }

  function ClientOf(w: World, sock: int): Option<Client> {
    var i := FindSlot(w.clients, sock);
    if sock >= 0 && i < |w.clients| then w.clients[i] else None
  }

  function SetClient(w: World, c: Client): World {
    var i := FindSlot(w.clients, c.socket);
    if i < |w.clients| then w.(clients := w.clients[i := Some(c)]) else w
  }

  /** `tx_cleanup`. */
  function Cleaned(c: Client): Client {
    c.(inTransaction := false, errors := false, queue := [])
  }

  // ---------- names ----------

  /** The lower-cased first word of a line. */
  function Name(input: string): string {
    if Tokens(input) == [] then "" else Lower(Tokens(input)[0])
  }

  /** What a queue may hold: a line with a first word that is none of multi, exec, discard. */
  predicate Queueable(input: string) {
    Tokens(input) != [] && !IsTxName(Name(input))
  }

  lemma NameOfTokens(input: string)
    ensures Tokens(input) != [] ==> Name(input) == Lower(Tokens(input)[0])
  {}

  // ---------- the invariant ----------

  ghost function Ids(clients: seq<Option<Client>>): set<nat> {
    set i | 0 <= i < |clients| && clients[i].Some? :: clients[i].value.id
  }

  ghost predicate ClientsOk(clients: seq<Option<Client>>, nextId: nat) {
    && (forall i :: 0 <= i < |clients| && clients[i].Some? ==>
          && clients[i].value.socket >= 0 && clients[i].value.id < nextId
          && forall k :: 0 <= k < |clients[i].value.queue| ==> Queueable(clients[i].value.queue[k]))
    && (forall i, j :: 0 <= i < j < |clients| && clients[i].Some? && clients[j].Some? ==>
          clients[i].value.socket != clients[j].value.socket && clients[i].value.id != clients[j].value.id)
  }

  /** The table is well formed, queues are clean, sockets and identities are distinct,
      channels are well formed and every subscriber is a registered client. */
  ghost predicate Ok(w: World)
    ensures Ok(w) ==> Wf(w.db)
  {
    && Wf(w.db)
    && ClientsOk(w.clients, w.nextId)
    && HubOk(w.channels) && SubsIn(w.channels, Ids(w.clients))
  }

  lemma SetClientOk(w: World, c: Client)
    requires Ok(w) && ClientOf(w, c.socket).Some? && ClientOf(w, c.socket).value.id == c.id
    requires forall k :: 0 <= k < |c.queue| ==> Queueable(c.queue[k])
    ensures Ok(SetClient(w, c)) && Ids(SetClient(w, c).clients) == Ids(w.clients)
    ensures ClientOf(SetClient(w, c), c.socket) == Some(c)
  {
    hide Wf, HubOk, SubsIn, Ids, Queueable;
    var i := FindSlot(w.clients, c.socket);
    var w' := SetClient(w, c);
    SameIds(w.clients, i, c);
    FindSlotIs(w'.clients, c.socket, i);
  }

  lemma SameIds(clients: seq<Option<Client>>, i: nat, c: Client)
    requires i < |clients| && clients[i].Some? && clients[i].value.id == c.id
    ensures Ids(clients[i := Some(c)]) == Ids(clients)
  {
    var clients' := clients[i := Some(c)];
    forall id | id in Ids(clients) ensures id in Ids(clients') {
      var k :| 0 <= k < |clients| && clients[k].Some? && clients[k].value.id == id;
      assert clients'[k].Some? && clients'[k].value.id == id;
    }
    forall id | id in Ids(clients') ensures id in Ids(clients) {
      var k :| 0 <= k < |clients'| && clients'[k].Some? && clients'[k].value.id == id;
      assert clients[k].Some? && clients[k].value.id == id;
    }
  }

  lemma FindSlotIs(clients: seq<Option<Client>>, sock: int, i: nat)
    requires i <= |clients| && (i < |clients| ==> clients[i].Some? && clients[i].value.socket == sock)
    requires forall k :: 0 <= k < i ==> clients[k].None? || clients[k].value.socket != sock
    ensures FindSlot(clients, sock) == i
  {}

  // ---------- the handlers ----------

  datatype Done = Done(world: World, ok: bool)

  function MultiCmd(w: World, sock: int): Done {
    match ClientOf(w, sock)
    case None => Done(Reply(w, sock, ReplyError("ERR client not found")), false)
    case Some(c) =>
      if c.inTransaction then Done(Reply(w, sock, ReplyError("ERR MULTI calls can not be nested")), false)
      else Done(Reply(SetClient(w, c.(inTransaction := true, errors := false)), sock, ReplyString("OK")), true)
  }

  /** OK is sent twice, by `tx_discard_commands` and by its caller. */
  function DiscardCmd(w: World, sock: int): Done {
    match ClientOf(w, sock)
    case None => Done(Reply(w, sock, ReplyError("ERR client not found")), false)
    case Some(c) =>
      if !c.inTransaction then Done(Reply(w, sock, ReplyError("ERR DISCARD without MULTI")), false)
      else Done(Reply(Reply(SetClient(w, Cleaned(c)), sock, ReplyString("OK")), sock, ReplyString("OK")), true)
  }

  function PingCmd(w: World, sock: int, argv: seq<string>): Done
    requires |argv| >= 1
  {
    Done(Reply(w, sock, if |argv| > 1 then ReplyBulk(argv[1]) else ReplyString("PONG")), true)
  }

  function Answered(w: World, sock: int, ok: bool, yes: string, no: string): Done {
    Done(Reply(w, sock, if ok then ReplyString(yes) else ReplyError(no)), ok)
  }

  function SaveCmd(w: World, sock: int, ctx: Context): Done {
    Answered(w, sock, ctx.saves, "OK", "ERR failed to save db")
  }

  function BgSaveCmd(w: World, sock: int, ctx: Context): Done {
    Answered(w, sock, ctx.forks, "Background saving started", "ERR failed to start background save")
  }

  function RoleCmd(w: World, sock: int, ctx: Context): Done {
    Done(Reply(w, sock, ctx.role), true)
  }

  /** `atoi`. */
  function Atoi(s: string): int {
    (Atoll(s) + 0x8000_0000) % 0x1_0000_0000 - 0x8000_0000
  }

  /** The role changes before the connection is attempted. */
  function ReplicaOfCmd(w: World, sock: int, argv: seq<string>, ctx: Context): Done
    requires |argv| == 3
  {
    if Lower(argv[1]) == "no" && Lower(argv[2]) == "one" then
      Done(Reply(w.(link := w.link.(primary := true)), sock, ReplyString("OK")), true)
    else if Atoi(argv[2]) <= 0 || Atoi(argv[2]) > 65535 then
      Done(Reply(w, sock, ReplyError("ERR invalid port")), false)
    else
      Answered(w.(link := w.link.(primary := false)), sock, ctx.connects, "OK", "ERR couldn't connect to primary")
  }

  function ReplConfCmd(w: World, sock: int, argv: seq<string>, ctx: Context): Done
    requires |argv| >= 2
  {
    if |argv| >= 3 && Lower(argv[1]) == "listening-port" then
      var w' := w.(link := w.link.(replicas := [sock] + w.link.replicas),
                   sent := w.sent + SyncWrites(Flatten(w.db.rows), sock, ctx.env));
      Done(Reply(w', sock, ReplyString("OK")), true)
    else
      Done(Reply(w, sock, ReplyString("OK")), true)
  }

  function SubscribeCmd(w: World, sock: int, argv: seq<string>): Done
    requires |argv| >= 2
  {
    match ClientOf(w, sock)
    case None => Done(Reply(w, sock, ReplyError("err client not found for subscribe")), false)
    case Some(c) =>
      Done(Reply(w.(channels := SubscribeAll(w.channels, c.id, argv[1..])), sock, SubscribeReplies(argv[1..], 0)), true)
  }

  function UnsubscribeCmd(w: World, sock: int, argv: seq<string>): Done
    requires |argv| >= 1
  {
    match ClientOf(w, sock)
    case None => Done(Reply(w, sock, ReplyError("err client not found for unsubscribe")), false)
    case Some(c) =>
      var (channels, replies) := UnsubscribeClient(w.channels, c.id, argv[1..]);
      Done(Reply(w.(channels := channels), sock, replies), true)
  }

  function FindId(clients: seq<Option<Client>>, id: nat): (i: nat)
    ensures i <= |clients|
    ensures i < |clients| ==> clients[i].Some? && clients[i].value.id == id
    ensures forall k :: 0 <= k < i ==> clients[k].None? || clients[k].value.id != id
  {
    if clients == [] || (clients[0].Some? && clients[0].value.id == id) then 0 else 1 + FindId(clients[1..], id)
  }

  /** The message to every subscriber's socket, reached through the client it points to. */
  function Deliver(clients: seq<Option<Client>>, ids: seq<nat>, message: string): seq<Sent>
    requires forall s :: s in ids ==> s in Ids(clients)
  {
    if ids == [] then []
    else
      var i := FindId(clients, ids[0]);
      assert ids[0] in Ids(clients);
      [Sent(clients[i].value.socket, message)] + Deliver(clients, ids[1..], message)
  }

  function PublishCmd(w: World, sock: int, argv: seq<string>): Done
    requires |argv| == 3 && Ok(w)
  {
    var to := Receivers(w.channels, argv[1]);
    var w' := w.(sent := w.sent + Deliver(w.clients, to, Message(argv[1], argv[2])));
    Done(Reply(w', sock, ReplyInteger(|to|)), true)
  }

  /** Whoever a message goes to is a registered client. */
  lemma ReceiversLive(w: World, name: string)
    requires Ok(w)
    ensures forall s :: s in Receivers(w.channels, name) ==> s in Ids(w.clients)
  {
    hide Wf, ClientsOk, HubOk, Ids;
  }

  function KeyCmd(w: World, sock: int, argv: seq<string>, ctx: Context): Done
    requires Wf(w.db) && IsKeyCommand(argv)
  {
    var out := Handle(w.db, argv, ctx.env.now);
    Done(Reply(w.(db := out.table), sock, out.reply), out.ok)
  }

  /** The handlers of the commands that are not about keys; EXEC's is `ExecCmd`. */
  function OtherCommand(w: World, sock: int, argv: seq<string>, ctx: Context): Done
    requires Ok(w) && WellCalled(argv) && !IsKeyHandler(HandlerOf(argv))
  {
    match HandlerOf(argv)
    case CmdPing => PingCmd(w, sock, argv)
    case CmdSave => SaveCmd(w, sock, ctx)
    case CmdBgSave => BgSaveCmd(w, sock, ctx)
    case CmdReplicaOf => ReplicaOfCmd(w, sock, argv, ctx)
    case CmdRole => RoleCmd(w, sock, ctx)
    case CmdReplConf => ReplConfCmd(w, sock, argv, ctx)
    case CmdMulti => MultiCmd(w, sock)
    case CmdDiscard => DiscardCmd(w, sock)
    case CmdSubscribe => SubscribeCmd(w, sock, argv)
    case CmdUnsubscribe => UnsubscribeCmd(w, sock, argv)
    case CmdPublish => PublishCmd(w, sock, argv)
    case CmdExec => Done(w, false)
  }

  /** A handler that runs on its own. */
  function RunCommand(w: World, sock: int, argv: seq<string>, ctx: Context): Done
    requires Ok(w) && WellCalled(argv) && Lower(argv[0]) != "exec"
  {
    if IsKeyHandler(HandlerOf(argv)) then KeyCmd(w, sock, argv, ctx) else OtherCommand(w, sock, argv, ctx)
  }

  lemma ClientIsRegistered(w: World, sock: int)
    requires Ok(w) && ClientOf(w, sock).Some?
    ensures var c := ClientOf(w, sock).value;
      && c.socket == sock && c.id in Ids(w.clients)
      && forall k :: 0 <= k < |c.queue| ==> Queueable(c.queue[k])
  {
    hide Wf, HubOk, SubsIn, Queueable;
  }

  lemma ClientCommandsOk(w: World, sock: int, argv: seq<string>)
    requires Ok(w) && |argv| >= 1
    ensures Ok(MultiCmd(w, sock).world) && Ids(MultiCmd(w, sock).world.clients) == Ids(w.clients)
    ensures Ok(DiscardCmd(w, sock).world) && Ids(DiscardCmd(w, sock).world.clients) == Ids(w.clients)
    ensures MultiCmd(w, sock).world.db == w.db && DiscardCmd(w, sock).world.db == w.db
    ensures UnsubscribeCmd(w, sock, argv).world.db == w.db
    ensures |argv| >= 2 ==> SubscribeCmd(w, sock, argv).world.db == w.db
    ensures Ok(UnsubscribeCmd(w, sock, argv).world) && UnsubscribeCmd(w, sock, argv).world.clients == w.clients
    ensures |argv| >= 2 ==> Ok(SubscribeCmd(w, sock, argv).world) && SubscribeCmd(w, sock, argv).world.clients == w.clients
  {
    hide Wf, ClientsOk, HubOk, SubsIn, Ids, SubscribeAll, UnsubscribeClient, ClientOf;
    if ClientOf(w, sock).Some? {
      var c := ClientOf(w, sock).value;
      ClientIsRegistered(w, sock);
      SetClientOk(w, c.(inTransaction := true, errors := false));
      SetClientOk(w, Cleaned(c));
      SubscribeAllOk(w.channels, c.id, argv[1..], Ids(w.clients));
      UnsubscribeClientOk(w.channels, c.id, argv[1..], Ids(w.clients));
    }
  }

  /** Replies, replicas and published messages concern none of what the invariant speaks of. */
  lemma SideOk(w: World, link: Link, sent: seq<Sent>, changes: nat)
    requires Ok(w)
    ensures Ok(w.(link := link, sent := sent, changes := changes))
  {}

  lemma ReplyOk(w: World, sock: int, bytes: string)
    requires Ok(w)
    ensures Ok(Reply(w, sock, bytes)) && Reply(w, sock, bytes).clients == w.clients
  {
    SideOk(w, w.link, w.sent + [Sent(sock, bytes)], w.changes);
  }

  lemma RepliesOk(w: World, sock: int)
    requires Ok(w)
    ensures forall bytes :: Ok(Reply(w, sock, bytes)) && Reply(w, sock, bytes).clients == w.clients
  {
    hide Ok, Reply;
    forall bytes ensures Ok(Reply(w, sock, bytes)) && Reply(w, sock, bytes).clients == w.clients {
      ReplyOk(w, sock, bytes);
    }
  }

  lemma KeyCmdOk(w: World, sock: int, argv: seq<string>, ctx: Context)
    requires Ok(w) && IsKeyCommand(argv)
    ensures Ok(KeyCmd(w, sock, argv, ctx).world) && KeyCmd(w, sock, argv, ctx).world.clients == w.clients
  {
    hide Wf, ClientsOk, HubOk, SubsIn, Ids, Handle, WellCalled, HandlerOf;
    HandleKeeps(w.db, argv, ctx.env.now);
  }

  /** Only the log or the link differs. */
  ghost predicate SameBut(w: World, w': World) {
    w' == w.(link := w'.link, sent := w'.sent, changes := w'.changes)
  }

  lemma SameButOk(w: World, w': World)
    requires Ok(w) && SameBut(w, w')
    ensures Ok(w')
  {
    SideOk(w, w'.link, w'.sent, w'.changes);
  }

  lemma PlainCommands(w: World, sock: int, argv: seq<string>, ctx: Context)
    requires Ok(w)
    ensures |argv| >= 1 ==> SameBut(w, PingCmd(w, sock, argv).world)
    ensures SameBut(w, SaveCmd(w, sock, ctx).world) && SameBut(w, BgSaveCmd(w, sock, ctx).world)
    ensures SameBut(w, RoleCmd(w, sock, ctx).world)
    ensures |argv| == 3 ==> SameBut(w, ReplicaOfCmd(w, sock, argv, ctx).world)
    ensures |argv| >= 2 ==> SameBut(w, ReplConfCmd(w, sock, argv, ctx).world)
    ensures |argv| == 3 ==> SameBut(w, PublishCmd(w, sock, argv).world)
    ensures SameBut(w, w)
  {
    hide Ok, SyncWrites, Deliver, Receivers, Flatten, Message, Decimal, Atoi;
  }

  lemma OtherCommandOk(w: World, sock: int, argv: seq<string>, ctx: Context)
    requires Ok(w) && WellCalled(argv) && !IsKeyHandler(HandlerOf(argv))
    ensures Ok(OtherCommand(w, sock, argv, ctx).world)
    ensures Ids(OtherCommand(w, sock, argv, ctx).world.clients) == Ids(w.clients)
    ensures !IsTxName(Lower(argv[0])) ==> OtherCommand(w, sock, argv, ctx).world.clients == w.clients
    ensures OtherCommand(w, sock, argv, ctx).world.db == w.db
  {
    hide Ok, Ids, WellCalled, HandlerOf, MultiCmd, DiscardCmd, SubscribeCmd, UnsubscribeCmd, OtherCommand, SameBut;
    var h := HandlerOf(argv);
    if h == CmdMulti || h == CmdDiscard || h == CmdSubscribe || h == CmdUnsubscribe {
      ClientCommandsOk(w, sock, argv);
      ClientHandlers(w, sock, argv, ctx);
    } else {
      OtherPlain(w, sock, argv, ctx);
      SameDb(w, OtherCommand(w, sock, argv, ctx).world);
      SameButOk(w, OtherCommand(w, sock, argv, ctx).world);
    }
  }

  lemma ClientHandlers(w: World, sock: int, argv: seq<string>, ctx: Context)
    requires Ok(w) && WellCalled(argv)
    ensures HandlerOf(argv) == CmdMulti ==> OtherCommand(w, sock, argv, ctx) == MultiCmd(w, sock)
    ensures HandlerOf(argv) == CmdDiscard ==> OtherCommand(w, sock, argv, ctx) == DiscardCmd(w, sock)
    ensures HandlerOf(argv) == CmdSubscribe ==> OtherCommand(w, sock, argv, ctx) == SubscribeCmd(w, sock, argv)
    ensures HandlerOf(argv) == CmdUnsubscribe ==> OtherCommand(w, sock, argv, ctx) == UnsubscribeCmd(w, sock, argv)
  {
    hide Ok, WellCalled, HandlerOf, MultiCmd, DiscardCmd, SubscribeCmd, UnsubscribeCmd, PingCmd, SaveCmd, BgSaveCmd,
      RoleCmd, ReplicaOfCmd, ReplConfCmd, PublishCmd, Reply;
  }

  /** Every other handler leaves table, clients and channels alone. */
  lemma OtherPlain(w: World, sock: int, argv: seq<string>, ctx: Context)
    requires Ok(w) && WellCalled(argv) && !IsKeyHandler(HandlerOf(argv))
    requires HandlerOf(argv) !in {CmdMulti, CmdDiscard, CmdSubscribe, CmdUnsubscribe}
    ensures SameBut(w, OtherCommand(w, sock, argv, ctx).world)
  {
    hide Ok, WellCalled, HandlerOf, PingCmd, ReplicaOfCmd, ReplConfCmd, PublishCmd, SaveCmd, BgSaveCmd, RoleCmd, SameBut;
    PlainCommands(w, sock, argv, ctx);
  }

  lemma SameDb(w: World, w': World)
    requires SameBut(w, w')
    ensures w'.clients == w.clients && w'.db == w.db
  {}

  lemma RunCommandOk(w: World, sock: int, argv: seq<string>, ctx: Context)
    requires Ok(w) && WellCalled(argv) && Lower(argv[0]) != "exec"
    ensures Ok(RunCommand(w, sock, argv, ctx).world)
    ensures Ids(RunCommand(w, sock, argv, ctx).world.clients) == Ids(w.clients)
    ensures !IsTxName(Lower(argv[0])) ==> RunCommand(w, sock, argv, ctx).world.clients == w.clients
    ensures !IsKeyCommand(argv) ==> RunCommand(w, sock, argv, ctx).world.db == w.db
  {
    hide Ok, KeyCmd, OtherCommand, WellCalled, HandlerOf;
    if IsKeyHandler(HandlerOf(argv)) { KeyCmdOk(w, sock, argv, ctx); } else { OtherCommandOk(w, sock, argv, ctx); }
  }

  // ---------- execute_command and EXEC ----------

  /** Propagation: a successful write command of a connected client on a primary. */
  function Propagate(w: World, input: string, ctx: Context): World {
    var (l, writes) := Feed(w.link, input, ctx.env);
    w.(link := l, changes := w.changes + 1, sent := w.sent + writes)
  }

  /** Inside a transaction: the original line joins the queue. */
  function Enqueue(w: World, sock: int, input: string): (w': World)
    requires Ok(w) && ClientOf(w, sock).Some? && Queueable(input)
    ensures Ok(w') && Ids(w'.clients) == Ids(w.clients)
  {
    var c := ClientOf(w, sock).value;
    ClientIsRegistered(w, sock);
    SetClientOk(w, c.(queue := c.queue + [input]));
    Reply(SetClient(w, c.(queue := c.queue + [input])), sock, ReplyString("QUEUED"))
  }

  /** Outside: a command of the table, other than EXEC, and its propagation. */
  function Dispatch(w: World, sock: int, argv: seq<string>, input: string, ctx: Context): (w': World)
    requires Ok(w) && WellCalled(argv) && Lower(argv[0]) != "exec"
    ensures Ok(w') && Ids(w'.clients) == Ids(w.clients)
  {
    RunCommandOk(w, sock, argv, ctx);
    var done := RunCommand(w, sock, argv, ctx);
    if done.ok && InTransaction(done.world, sock) != Some(true) && done.world.link.primary && sock >= 0 && IsWriteName(Lower(argv[0]))
    then Propagate(done.world, input, ctx)
    else done.world
  }

  /** `exec_command` with `tx_execute_commands`: the queue is copied and the transaction
      state reset before the first queued line runs. */
  function ExecCmd(w: World, sock: int, ctx: Context): (w': World)
    requires Ok(w)
    ensures Ok(w') && Ids(w'.clients) == Ids(w.clients)
    decreases 2, 0
  {
    hide Ok, Reply, SetClient, Queueable, RunQueue, ExecHeader, PerLine, ClientOf;
    RepliesOk(w, sock);
    match ClientOf(w, sock)
    case None => Reply(w, sock, ReplyError("ERR client not found"))
    case Some(c) =>
      if !c.inTransaction then Reply(w, sock, ReplyError("ERR EXEC without MULTI"))
      else
        ClientIsRegistered(w, sock);
        SetClientOk(w, Cleaned(c));
        var clean := SetClient(w, Cleaned(c));
        RepliesOk(clean, sock);
        if c.errors then
          Reply(clean, sock, ReplyError("EXECABORT Transaction discarded because of previous errors"))
        else
          ForceReset(RunQueue(Reply(clean, sock, ExecHeader(c.queue)), sock, c.queue, PerLine(ctx, |c.queue|)), sock)
  }

  /** `execute_command`. */
  function Execute(w: World, sock: int, input: string, ctx: Context): (w': World)
    requires Ok(w)
    ensures Ok(w') && Ids(w'.clients) == Ids(w.clients)
    decreases if Name(input) == "exec" then 2 else 0, 1
  {
    hide Ok, Reply, Enqueue, Dispatch, CommandTable, ExecCmd, ClientOf;
    RepliesOk(w, sock);
    NameOfTokens(input);
    var argv := Tokens(input);
    if argv == [] then Reply(w, sock, ReplyError("err empty command"))
    else if InTransaction(w, sock) == Some(true) && !IsTxName(Name(input)) then Enqueue(w, sock, input)
    else if CommandTable(Name(input)).None? then Reply(w, sock, ReplyError("err unknown command"))
    else if !Fits(CommandTable(Name(input)).value, |argv|) then Reply(w, sock, ReplyError("err wrong number of arguments"))
    else if Name(input) == "exec" then ExecCmd(w, sock, ctx)
    else Dispatch(w, sock, argv, input, ctx)
  }

  /** The transaction flag of the client at a socket, if there is one. */
  function InTransaction(w: World, sock: int): Option<bool> {
    match ClientOf(w, sock)
    case None => None
    case Some(c) => Some(c.inTransaction)
  }

  function ExecHeader(queue: seq<string>): string { "*" + Decimal(|queue|) + CRLF }

  /** The loop of `tx_execute_commands` over the copied queue. */
  function RunQueue(w: World, sock: int, queue: seq<string>, ctxs: seq<Context>): (w': World)
    requires Ok(w) && |ctxs| == |queue| && forall k :: 0 <= k < |queue| ==> Queueable(queue[k])
    ensures Ok(w') && Ids(w'.clients) == Ids(w.clients)
    decreases 1, |queue|
  {
    if queue == [] then w
    else
      assert Queueable(queue[0]);
      RunQueue(Execute(w, sock, queue[0], ctxs[0]), sock, queue[1..], ctxs[1..])
  }

  /** The end of `exec_command`: the flag is forced to 0 if it is still set. */
  function ForceReset(w: World, sock: int): (w': World)
    requires Ok(w)
    ensures Ok(w') && Ids(w'.clients) == Ids(w.clients)
  {
    match ClientOf(w, sock)
    case None => w
    case Some(c) =>
      if c.inTransaction then
        ClientIsRegistered(w, sock);
        SetClientOk(w, c.(inTransaction := false));
        SetClient(w, c.(inTransaction := false))
      else w
  }
}
