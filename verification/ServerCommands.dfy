/** What one line does to the server and answers, by command name (src/commands.c). */
module ServerCommands {
  import opened Text
  import opened Tokenizer
  import opened HashTable
  import opened TableLaws
  import opened Eviction
  import opened Commands
  import opened Expiry
  import opened PubSub
  import opened Replication
  import opened Executor
  import opened Transactions
  import opened Lifecycle

  /** The commands that are not about keys, by name. */
  lemma OtherNames(argv: seq<string>)
    requires argv != []
    ensures Lower(argv[0]) == "ping" && |argv| <= 2 ==> WellCalled(argv) && HandlerOf(argv) == CmdPing
    ensures Lower(argv[0]) == "replicaof" && |argv| == 3 ==> WellCalled(argv) && HandlerOf(argv) == CmdReplicaOf
    ensures Lower(argv[0]) == "subscribe" && |argv| >= 2 ==> WellCalled(argv) && HandlerOf(argv) == CmdSubscribe
    ensures Lower(argv[0]) == "unsubscribe" ==> WellCalled(argv) && HandlerOf(argv) == CmdUnsubscribe
    ensures Lower(argv[0]) == "publish" && |argv| == 3 ==> WellCalled(argv) && HandlerOf(argv) == CmdPublish
    ensures Lower(argv[0]) == "save" && |argv| == 1 ==> WellCalled(argv) && HandlerOf(argv) == CmdSave
    ensures Lower(argv[0]) == "bgsave" && |argv| == 1 ==> WellCalled(argv) && HandlerOf(argv) == CmdBgSave
    ensures Lower(argv[0]) == "replconf" && |argv| >= 2 ==> WellCalled(argv) && HandlerOf(argv) == CmdReplConf
    ensures Lower(argv[0]) == "role" && |argv| == 1 ==> WellCalled(argv) && HandlerOf(argv) == CmdRole
  {
    hide Lower;
  }

  /** Outside a transaction a read command runs its handler and is not sent on. */
  lemma RunsHandler(w: World, sock: int, input: string, ctx: Context)
    requires Ok(w) && InTransaction(w, sock) != Some(true) && WellCalled(Tokens(input))
    requires !IsTxName(Lower(Tokens(input)[0])) && !IsWriteName(Lower(Tokens(input)[0]))
    ensures !IsKeyHandler(HandlerOf(Tokens(input))) ==>
      Execute(w, sock, input, ctx) == OtherCommand(w, sock, Tokens(input), ctx).world
  {
    hide Ok, Tokens, CommandTable, Lower, OtherCommand, KeyCmd, ClientOf, HandlerOf;
    NameOfTokens(input);
  }

  lemma ErrorText(text: string)
    ensures ReplyError(text) == "-" + text + "\r\n" && ReplyError(text) != ""
  {}

  lemma ShortTexts()
    ensures ReplyString("OK") == "+OK\r\n" && ReplyString("PONG") == "+PONG\r\n"
  {}

  /** An empty line, an unknown name and a wrong number of words are refused. */
  lemma Refusals(w: World, sock: int, input: string, ctx: Context)
    requires Ok(w) && sock >= 0 && InTransaction(w, sock) != Some(true)
    ensures Tokens(input) == [] ==>
      Execute(w, sock, input, ctx) == w.(sent := w.sent + [Sent(sock, "-" + "err empty command" + "\r\n")])
    ensures Tokens(input) != [] && CommandTable(Name(input)).None? ==>
      Execute(w, sock, input, ctx) == w.(sent := w.sent + [Sent(sock, "-" + "err unknown command" + "\r\n")])
    ensures Tokens(input) != [] && CommandTable(Name(input)).Some? && !WellCalled(Tokens(input)) ==>
      Execute(w, sock, input, ctx) == w.(sent := w.sent + [Sent(sock, "-" + "err wrong number of arguments" + "\r\n")])
  {
    hide Ok, Tokens, CommandTable, Lower, Executor.Dispatch, ExecCmd, ClientOf, ReplyError;
    NameOfTokens(input);
    ErrorText("err empty command");
    ErrorText("err unknown command");
    ErrorText("err wrong number of arguments");
  }


  lemma TxNames(argv: seq<string>)
    requires |argv| == 1
    ensures Lower(argv[0]) == "multi" ==> WellCalled(argv) && HandlerOf(argv) == CmdMulti
    ensures Lower(argv[0]) == "exec" ==> WellCalled(argv)
    ensures Lower(argv[0]) == "discard" ==> WellCalled(argv) && HandlerOf(argv) == CmdDiscard
  {
    hide Lower;
  }

  /** MULTI inside a transaction, and EXEC and DISCARD outside, are refused. */
  lemma TxRefusals(w: World, sock: int, input: string, ctx: Context)
    requires Ok(w) && ClientOf(w, sock).Some? && |Tokens(input)| == 1
    ensures InTransaction(w, sock) == Some(true) && Lower(Tokens(input)[0]) == "multi" ==>
      Execute(w, sock, input, ctx) == w.(sent := w.sent + [Sent(sock, "-" + "ERR MULTI calls can not be nested" + "\r\n")])
    ensures InTransaction(w, sock) == Some(false) && Lower(Tokens(input)[0]) == "exec" ==>
      Execute(w, sock, input, ctx) == w.(sent := w.sent + [Sent(sock, "-" + "ERR EXEC without MULTI" + "\r\n")])
    ensures InTransaction(w, sock) == Some(false) && Lower(Tokens(input)[0]) == "discard" ==>
      Execute(w, sock, input, ctx) == w.(sent := w.sent + [Sent(sock, "-" + "ERR DISCARD without MULTI" + "\r\n")])
  {
    hide Ok, Tokens, CommandTable, Lower, FindSlot, RunQueue, ReplyError, HandlerOf;
    var argv := Tokens(input);
    NameOfTokens(input);
    TxNames(argv);
    SlotOf(w, sock);
    ErrorText("ERR MULTI calls can not be nested");
    ErrorText("ERR EXEC without MULTI");
    ErrorText("ERR DISCARD without MULTI");
  }

  /** PING answers PONG, or its word back. */
  lemma PingLine(w: World, sock: int, input: string, ctx: Context)
    requires Ok(w) && sock >= 0 && InTransaction(w, sock) != Some(true)
    requires 1 <= |Tokens(input)| <= 2 && Lower(Tokens(input)[0]) == "ping"
    ensures Execute(w, sock, input, ctx) ==
      w.(sent := w.sent + [Sent(sock, if |Tokens(input)| == 1 then "+PONG\r\n" else BulkText(Tokens(input)[1]))])
  {
    hide Ok, Tokens, WellCalled, HandlerOf, Lower, Execute, Decimal, ReplyBulk, ReplyString, BulkText;
    var argv := Tokens(input);
    OtherNames(argv);
    RunsHandler(w, sock, input, ctx);
    ShortTexts();
    if |argv| == 2 { BulkIs(argv[1]); BulkGiven(argv[1]); }
  }

  lemma BulkGiven(v: string)
    ensures BulkText(v) != ""
  {}

  /** SUBSCRIBE of a registered client: it is in every channel it named, all else is as
      before, and each channel is confirmed with its number. */
  lemma SubscribeLine(w: World, sock: int, input: string, ctx: Context)
    requires Ok(w) && InTransaction(w, sock) == Some(false)
    requires |Tokens(input)| >= 2 && Lower(Tokens(input)[0]) == "subscribe"
    ensures var w' := Execute(w, sock, input, ctx); var names := Tokens(input)[1..];
      && w' == w.(channels := w'.channels, sent := w.sent + [Sent(sock, SubscribeReplies(names, 0))])
      && forall s, n :: Subscribed(w'.channels, s, n) <==>
           Subscribed(w.channels, s, n) || (s == ClientOf(w, sock).value.id && n in names)
  {
    hide Wf, ClientsOk, HubOk, SubsIn, Tokens, WellCalled, HandlerOf, Lower, Execute, FindSlot, SubscribeAll, Subscribed,
      SubscribeReply;
    var argv := Tokens(input);
    OtherNames(argv);
    RunsHandler(w, sock, input, ctx);
    SlotOf(w, sock);
    RepliesSome(argv[1..]);
    var id := ClientOf(w, sock).value.id;
    forall s, n ensures Subscribed(SubscribeAll(w.channels, id, argv[1..]), s, n) <==>
      Subscribed(w.channels, s, n) || (s == id && n in argv[1..])
    {
      SubscribeAllExact(w.channels, id, argv[1..], s, n);
    }
  }

  lemma RepliesSome(names: seq<string>)
    requires names != []
    ensures SubscribeReplies(names, 0) != ""
  {}

  /** UNSUBSCRIBE of a registered client: it is in none of the channels it named, or in none
      at all, all else is as before, and exactly the channels it left are confirmed. */
  lemma UnsubscribeLine(w: World, sock: int, input: string, ctx: Context) returns (left: seq<string>)
    requires Ok(w) && InTransaction(w, sock) == Some(false)
    requires |Tokens(input)| >= 1 && Lower(Tokens(input)[0]) == "unsubscribe"
    ensures forall n :: n in left <==>
      Subscribed(w.channels, ClientOf(w, sock).value.id, n) && (|Tokens(input)| == 1 || n in Tokens(input)[1..])
    ensures forall i, j :: 0 <= i < j < |left| ==> left[i] != left[j]
    ensures var w' := Execute(w, sock, input, ctx); var names := Tokens(input)[1..];
      && (forall s, n :: Subscribed(w'.channels, s, n) <==>
            Subscribed(w.channels, s, n) && !(s == ClientOf(w, sock).value.id && (names == [] || n in names)))
      && var text := if names == [] && left == [] then "*3\r\n$11\r\nunsubscribe\r\n$-1\r\n:0\r\n" else Confirmed(left);
         w' == w.(channels := w'.channels, sent := w.sent + if text == "" then [] else [Sent(sock, text)])
  {
    hide Wf, ClientsOk, HubOk, SubsIn, Tokens, WellCalled, HandlerOf, Lower, Execute, FindSlot, UnsubscribeClient, Subscribed,
      Confirmed;
    var argv := Tokens(input);
    OtherNames(argv);
    RunsHandler(w, sock, input, ctx);
    SlotOf(w, sock);
    var id := ClientOf(w, sock).value.id;
    left := UnsubscribeConfirms(w.channels, id, argv[1..]);
    forall s, n ensures Subscribed(UnsubscribeClient(w.channels, id, argv[1..]).0, s, n) <==>
      Subscribed(w.channels, s, n) && !(s == id && (argv[1..] == [] || n in argv[1..]))
    {
      LeftExactly(w.channels, id, argv[1..], s, n);
    }
    assert w.sent + [] == w.sent;
  }

  lemma LeftExactly(channels: seq<Channel>, id: nat, names: seq<string>, s: nat, n: string)
    requires HubOk(channels)
    ensures Subscribed(UnsubscribeClient(channels, id, names).0, s, n) <==>
      Subscribed(channels, s, n) && !(s == id && (names == [] || n in names))
  {
    hide HubOk, UnsubscribeClient, FindChannel;
    UnsubscribeClientExact(channels, id, names);
    FindChannelIs(UnsubscribeClient(channels, id, names).0, n, FindChannel(channels, n));
  }

  /** PUBLISH sends every subscriber of the channel one message and replies their number. */
  lemma PublishLine(w: World, sock: int, input: string, ctx: Context) returns (to: seq<nat>)
    requires Ok(w) && sock >= 0 && InTransaction(w, sock) != Some(true)
    requires |Tokens(input)| == 3 && Lower(Tokens(input)[0]) == "publish"
    ensures forall s :: s in to <==> Subscribed(w.channels, s, Tokens(input)[1])
    ensures forall i, j :: 0 <= i < j < |to| ==> to[i] != to[j]
    ensures forall k :: 0 <= k < |to| ==> FindId(w.clients, to[k]) < |w.clients|
    ensures Execute(w, sock, input, ctx) ==
      w.(sent := w.sent
         + seq(|to|, k requires 0 <= k < |to| =>
             Sent(w.clients[FindId(w.clients, to[k])].value.socket, Message(Tokens(input)[1], Tokens(input)[2])))
         + [Sent(sock, ":" + Decimal(|to|) + "\r\n")])
  {
    hide Ok, Tokens, WellCalled, HandlerOf, Lower, Execute, Message, Decimal, FindId, Deliver, ClientOf, Receivers, Subscribed, Ids,
      OtherCommand, PublishCmd;
    var argv := Tokens(input);
    OtherNames(argv);
    RunsHandler(w, sock, input, ctx);
    PublishRuns(w, sock, argv, ctx);
    PublishExact(w, sock, argv);
    to := Receivers(w.channels, argv[1]);
    NoReceiverTwice(w, argv[1]);
    var message := Message(argv[1], argv[2]);
    ReceiversLive(w, argv[1]);
    DeliveredAs(w.clients, to, message);
  }

  lemma PublishRuns(w: World, sock: int, argv: seq<string>, ctx: Context)
    requires Ok(w) && sock >= 0 && |argv| == 3 && WellCalled(argv) && HandlerOf(argv) == CmdPublish
    ensures var to := Receivers(w.channels, argv[1]);
      && (forall s :: s in to ==> s in Ids(w.clients))
      && OtherCommand(w, sock, argv, ctx).world ==
         w.(sent := w.sent + Deliver(w.clients, to, Message(argv[1], argv[2])) + [Sent(sock, ":" + Decimal(|to|) + "\r\n")])
  {
    hide Ok, WellCalled, HandlerOf, Message, Decimal, Deliver, Receivers, Ids;
    ReceiversLive(w, argv[1]);
  }

  lemma DeliveredAs(clients: seq<Option<Client>>, to: seq<nat>, message: string)
    requires forall s :: s in to ==> s in Ids(clients)
    ensures forall k :: 0 <= k < |to| ==> FindId(clients, to[k]) < |clients|
    ensures Deliver(clients, to, message) ==
      seq(|to|, k requires 0 <= k < |to| => Sent(clients[FindId(clients, to[k])].value.socket, message))
  {
    hide Ids, Deliver;
    DeliverEach(clients, to, message);
  }

  lemma NoReceiverTwice(w: World, name: string)
    requires Ok(w)
    ensures forall i, j :: 0 <= i < j < |Receivers(w.channels, name)| ==>
      Receivers(w.channels, name)[i] != Receivers(w.channels, name)[j]
  {
    hide Wf, ClientsOk;
    assert NoRepeats(Receivers(w.channels, name));
  }

  /** REPLICAOF NO ONE makes the server a primary; with a port that can be one, a replica,
      whether or not the connection comes about; with any other it is refused. */
  lemma ReplicaOfLine(w: World, sock: int, input: string, ctx: Context)
    requires Ok(w) && sock >= 0 && InTransaction(w, sock) != Some(true)
    requires |Tokens(input)| == 3 && Lower(Tokens(input)[0]) == "replicaof"
    ensures var argv := Tokens(input); var w' := Execute(w, sock, input, ctx);
      if Lower(argv[1]) == "no" && Lower(argv[2]) == "one" then
        w' == w.(link := Link(true, w.link.replicas, w.link.offset), sent := w.sent + [Sent(sock, "+OK\r\n")])
      else if Atoi(argv[2]) <= 0 || Atoi(argv[2]) > 65535 then
        w' == w.(sent := w.sent + [Sent(sock, "-" + "ERR invalid port" + "\r\n")])
      else
        w' == w.(link := Link(false, w.link.replicas, w.link.offset),
                 sent := w.sent + [Sent(sock, if ctx.connects then "+OK\r\n" else "-" + "ERR couldn't connect to primary" + "\r\n")])
  {
    hide Ok, Tokens, WellCalled, HandlerOf, Lower, Execute, Atoi, ReplyString, ReplyError;
    OtherNames(Tokens(input));
    RunsHandler(w, sock, input, ctx);
    ShortTexts();
    ErrorText("ERR invalid port");
    ErrorText("ERR couldn't connect to primary");
  }

  /** REPLCONF listening-port lists its sender as a replica, newest first, and sends it the
      table before the OK; any other REPLCONF is just answered. */
  lemma ReplConfLine(w: World, sock: int, input: string, ctx: Context)
    requires Ok(w) && sock >= 0 && InTransaction(w, sock) != Some(true)
    requires |Tokens(input)| >= 2 && Lower(Tokens(input)[0]) == "replconf"
    ensures Execute(w, sock, input, ctx) ==
      if |Tokens(input)| >= 3 && Lower(Tokens(input)[1]) == "listening-port" then
        w.(link := w.link.(replicas := [sock] + w.link.replicas),
           sent := w.sent + SyncWrites(Flatten(w.db.rows), sock, ctx.env) + [Sent(sock, "+OK\r\n")])
      else w.(sent := w.sent + [Sent(sock, "+OK\r\n")])
  {
    hide Ok, Tokens, WellCalled, HandlerOf, Lower, Execute, SyncWrites, Flatten, ReplyString;
    OtherNames(Tokens(input));
    RunsHandler(w, sock, input, ctx);
    ShortTexts();
  }

  /** SAVE and BGSAVE answer how saving or forking went; ROLE answers its text. */
  lemma OutcomeLines(w: World, sock: int, input: string, ctx: Context)
    requires Ok(w) && sock >= 0 && InTransaction(w, sock) != Some(true) && |Tokens(input)| == 1 && ctx.role != ""
    ensures var name := Lower(Tokens(input)[0]); var w' := Execute(w, sock, input, ctx);
      && (name == "save" ==>
            w' == w.(sent := w.sent + [Sent(sock, if ctx.saves then "+OK\r\n" else "-" + "ERR failed to save db" + "\r\n")]))
      && (name == "bgsave" ==>
            w' == w.(sent := w.sent + [Sent(sock, if ctx.forks then "+" + "Background saving started" + "\r\n"
                                                  else "-" + "ERR failed to start background save" + "\r\n")]))
      && (name == "role" ==> w' == w.(sent := w.sent + [Sent(sock, ctx.role)]))
  {
    hide Ok, Tokens, WellCalled, HandlerOf, Lower, Execute, ReplyString, ReplyError;
    var argv := Tokens(input);
    OtherNames(argv);
    ShortTexts();
    ErrorText("ERR failed to save db");
    ErrorText("ERR failed to start background save");
    GoodText("Background saving started");
    if Lower(argv[0]) == "save" || Lower(argv[0]) == "bgsave" || Lower(argv[0]) == "role" { RunsHandler(w, sock, input, ctx); }
  }

  lemma GoodText(text: string)
    ensures ReplyString(text) == "+" + text + "\r\n" && ReplyString(text) != ""
  {}

  /** A command on keys does to the table and answers what `Handle` says; a successful
      write command of a primary's client is counted and sent on to the replicas. */
  lemma KeyLine(w: World, sock: int, input: string, ctx: Context)
    requires Ok(w) && sock >= 0 && InTransaction(w, sock) != Some(true) && IsKeyCommand(Tokens(input))
    ensures var name := Lower(Tokens(input)[0]); var out := Handle(w.db, Tokens(input), ctx.env.now);
      var answered := w.(db := out.table, sent := w.sent + [Sent(sock, out.reply)]);
      Execute(w, sock, input, ctx) ==
      if out.ok && w.link.primary && (name == "set" || name == "del" || name == "expire" || name == "incr") then
        var (link, writes) := Feed(w.link, input, ctx.env);
        answered.(link := link, changes := w.changes + 1, sent := answered.sent + writes)
      else answered
  {
    hide Ok, Tokens, CommandTable, Lower, Handle, Feed, ClientOf, OtherCommand, HandlerOf;
    var argv := Tokens(input);
    NameOfTokens(input);
    KeyNames(argv);
    ReplyGiven(w.db, argv, ctx.env.now);
    RunCommandOk(w, sock, argv, ctx);
    var done := RunCommand(w, sock, argv, ctx);
    SameFlag(w, done.world, sock);
    assert Execute(w, sock, input, ctx) == Executor.Dispatch(w, sock, argv, input, ctx);
  }

  lemma SameFlag(w: World, w': World, sock: int)
    requires w'.clients == w.clients
    ensures InTransaction(w', sock) == InTransaction(w, sock)
  {}

  lemma ReplyGiven(t: Table, argv: seq<string>, now: nat)
    requires Wf(t) && IsKeyCommand(argv)
    ensures Handle(t, argv, now).reply != ""
  {
    hide Wf, WellCalled, HandlerOf, Add, Get, Put, Fetched, FetchAll, DeleteAll, Strtoll, Decimal, Lookup, SetExpiry;
  }
}
