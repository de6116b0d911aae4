/** EXEC against running the queued lines one by one (src/transaction.c). */
module Transactions {
  import opened Text
  import opened Tokenizer
  import opened HashTable
  import opened TableLaws
  import opened Commands
  import opened PubSub
  import opened Replication
  import opened Executor

  // ---------- nothing depends on what was written before ----------

  /** The same world with more written before. */
  function After(log: seq<Sent>, w: World): World {
    w.(sent := log + w.sent)
  }

  function DoneAfter(log: seq<Sent>, d: Done): Done {
    Done(After(log, d.world), d.ok)
  }

  lemma AfterOk(log: seq<Sent>, w: World)
    requires Ok(w)
    ensures Ok(After(log, w))
  {
    SideOk(w, w.link, log + w.sent, w.changes);
  }

  lemma ReplyAfter(log: seq<Sent>, w: World, sock: int, bytes: string)
    ensures Reply(After(log, w), sock, bytes) == After(log, Reply(w, sock, bytes))
  {
    assert log + (w.sent + [Sent(sock, bytes)]) == (log + w.sent) + [Sent(sock, bytes)];
  }

  lemma SendAfter(log: seq<Sent>, w: World, more: seq<Sent>)
    ensures After(log, w.(sent := w.sent + more)) == After(log, w).(sent := After(log, w).sent + more)
  {
    assert log + (w.sent + more) == (log + w.sent) + more;
  }

  lemma MultiAfter(log: seq<Sent>, w: World, sock: int)
    ensures MultiCmd(After(log, w), sock) == DoneAfter(log, MultiCmd(w, sock))
    ensures DiscardCmd(After(log, w), sock) == DoneAfter(log, DiscardCmd(w, sock))
  {
    hide Reply;
    assert ClientOf(After(log, w), sock) == ClientOf(w, sock);
    if ClientOf(w, sock).Some? {
      var c := ClientOf(w, sock).value;
      var w1, w2 := SetClient(w, c.(inTransaction := true, errors := false)), SetClient(w, Cleaned(c));
      ReplyAfter(log, w1, sock, ReplyString("OK"));
      ReplyAfter(log, w2, sock, ReplyString("OK"));
      ReplyAfter(log, Reply(w2, sock, ReplyString("OK")), sock, ReplyString("OK"));
    }
    ReplyAfter(log, w, sock, ReplyError("ERR client not found"));
    ReplyAfter(log, w, sock, ReplyError("ERR MULTI calls can not be nested"));
    ReplyAfter(log, w, sock, ReplyError("ERR DISCARD without MULTI"));
  }

  lemma SubscribeAfter(log: seq<Sent>, w: World, sock: int, argv: seq<string>)
    requires |argv| >= 1
    ensures |argv| >= 2 ==> SubscribeCmd(After(log, w), sock, argv) == DoneAfter(log, SubscribeCmd(w, sock, argv))
    ensures UnsubscribeCmd(After(log, w), sock, argv) == DoneAfter(log, UnsubscribeCmd(w, sock, argv))
  {
    hide Reply, SubscribeAll, UnsubscribeClient, SubscribeReplies;
    assert ClientOf(After(log, w), sock) == ClientOf(w, sock);
    if ClientOf(w, sock).Some? {
      var id := ClientOf(w, sock).value.id;
      ReplyAfter(log, w.(channels := SubscribeAll(w.channels, id, argv[1..])), sock, SubscribeReplies(argv[1..], 0));
      var (channels, replies) := UnsubscribeClient(w.channels, id, argv[1..]);
      ReplyAfter(log, w.(channels := channels), sock, replies);
    }
    ReplyAfter(log, w, sock, ReplyError("err client not found for subscribe"));
    ReplyAfter(log, w, sock, ReplyError("err client not found for unsubscribe"));
  }

  lemma PlainAfter(log: seq<Sent>, w: World, sock: int, argv: seq<string>, ctx: Context)
    requires Ok(w) && Ok(After(log, w))
    ensures |argv| == 3 ==> ReplicaOfCmd(After(log, w), sock, argv, ctx) == DoneAfter(log, ReplicaOfCmd(w, sock, argv, ctx))
    ensures |argv| >= 2 ==> ReplConfCmd(After(log, w), sock, argv, ctx) == DoneAfter(log, ReplConfCmd(w, sock, argv, ctx))
    ensures |argv| == 3 ==> PublishCmd(After(log, w), sock, argv) == DoneAfter(log, PublishCmd(w, sock, argv))
    ensures IsKeyCommand(argv) ==> KeyCmd(After(log, w), sock, argv, ctx) == DoneAfter(log, KeyCmd(w, sock, argv, ctx))
  {
    hide Ok, Handle, WellCalled, HandlerOf, SyncWrites, Deliver, Receivers, Atoi, Wf;
    forall w0: World, bytes ensures Reply(After(log, w0), sock, bytes) == After(log, Reply(w0, sock, bytes)) {
      ReplyAfter(log, w0, sock, bytes);
    }
    hide Reply;
    if |argv| >= 2 {
      var w1 := w.(link := w.link.(replicas := [sock] + w.link.replicas));
      SendAfter(log, w1, SyncWrites(Flatten(w.db.rows), sock, ctx.env));
    }
    if |argv| == 3 {
      ReceiversLive(w, argv[1]);
      SendAfter(log, w, Deliver(w.clients, Receivers(w.channels, argv[1]), Message(argv[1], argv[2])));
    }
  }

  lemma OtherCommandAfter(log: seq<Sent>, w: World, sock: int, argv: seq<string>, ctx: Context)
    requires Ok(w) && Ok(After(log, w)) && WellCalled(argv) && !IsKeyHandler(HandlerOf(argv))
    ensures OtherCommand(After(log, w), sock, argv, ctx) == DoneAfter(log, OtherCommand(w, sock, argv, ctx))
  {
    hide Ok, MultiCmd, DiscardCmd, SubscribeCmd, UnsubscribeCmd, PublishCmd, ReplicaOfCmd, ReplConfCmd, Reply, Decimal, WellCalled,
      HandlerOf;
    MultiAfter(log, w, sock);
    SubscribeAfter(log, w, sock, argv);
    PlainAfter(log, w, sock, argv, ctx);
    forall bytes ensures Reply(After(log, w), sock, bytes) == After(log, Reply(w, sock, bytes)) {
      ReplyAfter(log, w, sock, bytes);
    }
  }

  lemma RunCommandAfter(log: seq<Sent>, w: World, sock: int, argv: seq<string>, ctx: Context)
    requires Ok(w) && Ok(After(log, w)) && WellCalled(argv) && Lower(argv[0]) != "exec"
    ensures RunCommand(After(log, w), sock, argv, ctx) == DoneAfter(log, RunCommand(w, sock, argv, ctx))
  {
    hide Ok, KeyCmd, OtherCommand, WellCalled, HandlerOf;
    if IsKeyHandler(HandlerOf(argv)) { PlainAfter(log, w, sock, argv, ctx); } else { OtherCommandAfter(log, w, sock, argv, ctx); }
  }

  lemma {:induction false} ExecuteAfter(log: seq<Sent>, w: World, sock: int, input: string, ctx: Context)
    requires Ok(w) && Ok(After(log, w))
    ensures Execute(After(log, w), sock, input, ctx) == After(log, Execute(w, sock, input, ctx))
    decreases if Name(input) == "exec" then 2 else 0, 1
  {
    hide Ok, Executor.Dispatch, Enqueue, Reply, CommandTable, Name, ExecCmd, ClientOf;
    var argv := Tokens(input);
    SameClientAfter(log, w, sock);
    forall w0: World, bytes ensures Reply(After(log, w0), sock, bytes) == After(log, Reply(w0, sock, bytes)) {
      ReplyAfter(log, w0, sock, bytes);
    }
    if argv == [] {
    } else if InTransaction(w, sock) == Some(true) && !IsTxName(Name(input)) {
      EnqueueAfter(log, w, sock, input);
    } else if CommandTable(Name(input)).Some? && Fits(CommandTable(Name(input)).value, |argv|) {
      assert Name(input) == Lower(argv[0]) by { NameOfTokens(input); }
      if Name(input) == "exec" {
        ExecCmdAfter(log, w, sock, ctx);
      } else {
        DispatchAfter(log, w, sock, argv, input, ctx);
      }
    }
  }

  lemma DispatchAfter(log: seq<Sent>, w: World, sock: int, argv: seq<string>, input: string, ctx: Context)
    requires Ok(w) && Ok(After(log, w)) && WellCalled(argv) && Lower(argv[0]) != "exec"
    ensures Executor.Dispatch(After(log, w), sock, argv, input, ctx) == After(log, Executor.Dispatch(w, sock, argv, input, ctx))
  {
    hide Ok, RunCommand, Feed, WellCalled, Lower, IsWriteName, ClientOf;
    RunCommandAfter(log, w, sock, argv, ctx);
    var d := RunCommand(w, sock, argv, ctx);
    SameClientAfter(log, d.world, sock);
    var (l, writes) := Feed(d.world.link, input, ctx.env);
    SendAfter(log, d.world.(link := l, changes := d.world.changes + 1), writes);
  }

  lemma SameClientAfter(log: seq<Sent>, w: World, sock: int)
    ensures ClientOf(After(log, w), sock) == ClientOf(w, sock)
  {}

  lemma EnqueueAfter(log: seq<Sent>, w: World, sock: int, input: string)
    requires Ok(w) && Ok(After(log, w)) && ClientOf(w, sock).Some? && Queueable(input)
    ensures ClientOf(After(log, w), sock).Some? && Enqueue(After(log, w), sock, input) == After(log, Enqueue(w, sock, input))
  {
    hide Ok, Reply;
    var c := ClientOf(w, sock).value;
    assert ClientOf(After(log, w), sock) == ClientOf(w, sock);
    ReplyAfter(log, SetClient(w, c.(queue := c.queue + [input])), sock, ReplyString("QUEUED"));
  }

  lemma {:induction false} ExecCmdAfter(log: seq<Sent>, w: World, sock: int, ctx: Context)
    requires Ok(w) && Ok(After(log, w))
    ensures ExecCmd(After(log, w), sock, ctx) == After(log, ExecCmd(w, sock, ctx))
    decreases 2, 0
  {
    hide Ok, Reply, RunQueue, SetClient, Queueable;
    assert ClientOf(After(log, w), sock) == ClientOf(w, sock);
    forall w0: World, bytes ensures Reply(After(log, w0), sock, bytes) == After(log, Reply(w0, sock, bytes)) {
      ReplyAfter(log, w0, sock, bytes);
    }
    if InTransaction(w, sock) == Some(true) && !ClientOf(w, sock).value.errors {
      var c := ClientOf(w, sock).value;
      ClientIsRegistered(w, sock);
      SetClientOk(w, Cleaned(c));
      var clean := SetClient(w, Cleaned(c));
      assert SetClient(After(log, w), Cleaned(c)) == After(log, clean) by { SetClientAfter(log, w, Cleaned(c)); }
      var w1 := Reply(clean, sock, ExecHeader(c.queue));
      ReplyOk(clean, sock, ExecHeader(c.queue));
      AfterOk(log, w1);
      RunQueueAfter(log, w1, sock, c.queue, PerLine(ctx, |c.queue|));
      var w2 := RunQueue(w1, sock, c.queue, PerLine(ctx, |c.queue|));
      AfterOk(log, w2);
      ForceResetAfter(log, w2, sock);
    } else if ClientOf(w, sock).Some? {
      var c := ClientOf(w, sock).value;
      SetClientAfter(log, w, Cleaned(c));
    }
  }

  lemma SetClientAfter(log: seq<Sent>, w: World, c: Client)
    ensures SetClient(After(log, w), c) == After(log, SetClient(w, c))
  {}

  lemma ForceResetAfter(log: seq<Sent>, w: World, sock: int)
    requires Ok(w) && Ok(After(log, w))
    ensures ForceReset(After(log, w), sock) == After(log, ForceReset(w, sock))
  {
    hide Ok, SetClient;
    assert ClientOf(After(log, w), sock) == ClientOf(w, sock);
    if ClientOf(w, sock).Some? { SetClientAfter(log, w, ClientOf(w, sock).value.(inTransaction := false)); }
  }

  lemma {:induction false} RunQueueAfter(log: seq<Sent>, w: World, sock: int, queue: seq<string>, ctxs: seq<Context>)
    requires Ok(w) && Ok(After(log, w)) && |ctxs| == |queue| && forall k :: 0 <= k < |queue| ==> Queueable(queue[k])
    ensures RunQueue(After(log, w), sock, queue, ctxs) == After(log, RunQueue(w, sock, queue, ctxs))
    decreases 1, |queue|
  {
    hide Ok, Execute;
    if queue != [] {
      assert Queueable(queue[0]);
      ExecuteAfter(log, w, sock, queue[0], ctxs[0]);
      AfterOk(log, Execute(w, sock, queue[0], ctxs[0]));
      RunQueueAfter(log, Execute(w, sock, queue[0], ctxs[0]), sock, queue[1..], ctxs[1..]);
    }
  }

  // ---------- a queue runs outside any transaction ----------

  /** A line that may be queued, run outside a transaction, changes no client: neither
      flag nor queue. */
  lemma QueuedLineKeepsClients(w: World, sock: int, input: string, ctx: Context)
    requires Ok(w) && Queueable(input) && InTransaction(w, sock) != Some(true)
    ensures Execute(w, sock, input, ctx).clients == w.clients
  {
    hide Ok, RunCommand, Feed, SetClient, Tokens;
    NameOfTokens(input);
    var argv := Tokens(input);
    if CommandTable(Name(input)).Some? && Fits(CommandTable(Name(input)).value, |argv|) {
      RunCommandOk(w, sock, argv, ctx);
    }
  }

  /** So the flag stays down while a queue runs. */
  lemma {:induction false} QueueKeepsClients(w: World, sock: int, queue: seq<string>, ctxs: seq<Context>)
    requires Ok(w) && InTransaction(w, sock) != Some(true)
    requires |ctxs| == |queue| && forall k :: 0 <= k < |queue| ==> Queueable(queue[k])
    ensures RunQueue(w, sock, queue, ctxs).clients == w.clients
    decreases |queue|
  {
    hide Ok, Execute;
    if queue != [] {
      assert Queueable(queue[0]);
      QueuedLineKeepsClients(w, sock, queue[0], ctxs[0]);
      QueueKeepsClients(Execute(w, sock, queue[0], ctxs[0]), sock, queue[1..], ctxs[1..]);
    }
  }

  /** When EXEC's queue has run, the flag is down: the forced reset never acts. */
  lemma ResetNeverActs(w: World, sock: int, ctxs: seq<Context>)
    requires Ok(w) && InTransaction(w, sock) == Some(true) && |ctxs| == |ClientOf(w, sock).value.queue|
    ensures var c := ClientOf(w, sock).value;
      var start := Reply(SetClient(w, Cleaned(c)), sock, ExecHeader(c.queue));
      && Ok(start) && (forall k :: 0 <= k < |c.queue| ==> Queueable(c.queue[k]))
      && var run := RunQueue(start, sock, c.queue, ctxs);
         InTransaction(run, sock) == Some(false) && ForceReset(run, sock) == run
  {
    hide Ok, RunQueue, Queueable, Wf;
    var c := ClientOf(w, sock).value;
    ClientIsRegistered(w, sock);
    SetClientOk(w, Cleaned(c));
    var start := Reply(SetClient(w, Cleaned(c)), sock, ExecHeader(c.queue));
    ReplyOk(SetClient(w, Cleaned(c)), sock, ExecHeader(c.queue));
    QueueKeepsClients(start, sock, c.queue, ctxs);
    assert ClientOf(RunQueue(start, sock, c.queue, ctxs), sock) == ClientOf(start, sock) == Some(Cleaned(c));
  }

  // ---------- EXEC is sequential execution ----------

  /** Lines sent by a client one by one, as separate commands, each in its own context. */
  function OneByOne(w: World, sock: int, lines: seq<string>, ctxs: seq<Context>): (w': World)
    requires Ok(w) && |ctxs| == |lines|
    ensures Ok(w')
    decreases |lines|
  {
    if lines == [] then w
    else
      var n := |lines| - 1;
      Execute(OneByOne(w, sock, lines[..n], ctxs[..n]), sock, lines[n], ctxs[n])
  }

  lemma OneByOneNext(w: World, sock: int, lines: seq<string>, ctxs: seq<Context>, line: string, ctx: Context)
    requires Ok(w) && |ctxs| == |lines|
    ensures OneByOne(w, sock, lines + [line], ctxs + [ctx]) == Execute(OneByOne(w, sock, lines, ctxs), sock, line, ctx)
  {
    hide Ok, Execute;
    assert (lines + [line])[..|lines|] == lines && (ctxs + [ctx])[..|ctxs|] == ctxs;
  }

  lemma RunQueueStep(w: World, sock: int, queue: seq<string>, ctxs: seq<Context>)
    requires Ok(w) && |ctxs| == |queue| && forall k :: 0 <= k < |queue| ==> Queueable(queue[k])
    ensures queue == [] ==> RunQueue(w, sock, queue, ctxs) == w
    ensures queue != [] ==>
      RunQueue(w, sock, queue, ctxs) == RunQueue(Execute(w, sock, queue[0], ctxs[0]), sock, queue[1..], ctxs[1..])
  {
    hide Ok, Execute, Queueable;
  }

  lemma {:induction false} RunQueueOneByOne(w: World, sock: int, done: seq<string>, doneCtxs: seq<Context>,
                                            more: seq<string>, moreCtxs: seq<Context>)
    requires Ok(w) && |doneCtxs| == |done| && |moreCtxs| == |more| && forall k :: 0 <= k < |more| ==> Queueable(more[k])
    ensures RunQueue(OneByOne(w, sock, done, doneCtxs), sock, more, moreCtxs) ==
            OneByOne(w, sock, done + more, doneCtxs + moreCtxs)
    decreases |more|
  {
    hide Ok, Execute, Queueable, RunQueue, OneByOne;
    var w1 := OneByOne(w, sock, done, doneCtxs);
    RunQueueStep(w1, sock, more, moreCtxs);
    if more == [] {
      assert done + more == done && doneCtxs + moreCtxs == doneCtxs;
    } else {
      OneByOneNext(w, sock, done, doneCtxs, more[0], moreCtxs[0]);
      assert done + more == (done + [more[0]]) + more[1..];
      assert doneCtxs + moreCtxs == (doneCtxs + [moreCtxs[0]]) + moreCtxs[1..];
      RunQueueOneByOne(w, sock, done + [more[0]], doneCtxs + [moreCtxs[0]], more[1..], moreCtxs[1..]);
    }
  }

  /** EXEC of a client in a transaction without errors leaves the same database, registry,
      channels, replicas and counters as its queued lines sent one by one outside the
      transaction, whatever clock and sockets each line finds, and writes the same bytes to
      the same sockets in the same order, after the one header "*N". */
  lemma ExecIsSequential(w: World, sock: int, input: string, ctx: Context, ctxs: seq<Context>)
    requires Ok(w) && Tokens(input) != [] && |Tokens(input)| == 1 && Name(input) == "exec"
    requires InTransaction(w, sock) == Some(true) && !ClientOf(w, sock).value.errors
    requires ctx.lines == ctxs && |ctxs| == |ClientOf(w, sock).value.queue|
    ensures var c := ClientOf(w, sock).value;
      var outside := SetClient(w, Cleaned(c));
      && Ok(outside)
      && var r := OneByOne(outside, sock, c.queue, ctxs);
         && w.sent <= r.sent
         && Execute(w, sock, input, ctx) ==
            r.(sent := w.sent + [Sent(sock, ExecHeader(c.queue))] + r.sent[|w.sent|..])
  {
    hide Ok, RunQueue, Queueable, OneByOne, Tokens, Wf, CommandTable, ExecHeader, Reply;
    var c := ClientOf(w, sock).value;
    ClientIsRegistered(w, sock);
    SetClientOk(w, Cleaned(c));
    var outside := SetClient(w, Cleaned(c));
    ReplyOk(outside, sock, ExecHeader(c.queue));
    assert CommandTable("exec") == Some(Def(CmdExec, 1, 1)) by { ExecArity(); }
    ResetNeverActs(w, sock, ctxs);
    QueueAfterHeader(outside, sock, c.queue, ctxs);
    OneByOneNone(outside, sock);
    assert [] + c.queue == c.queue && [] + ctxs == ctxs;
    RunQueueOneByOne(outside, sock, [], [], c.queue, ctxs);
  }

  /** The header stands before all a queue writes, and changes nothing else. */
  lemma QueueAfterHeader(w: World, sock: int, queue: seq<string>, ctxs: seq<Context>)
    requires Ok(w) && sock >= 0 && |ctxs| == |queue| && forall k :: 0 <= k < |queue| ==> Queueable(queue[k])
    ensures Ok(Reply(w, sock, ExecHeader(queue)))
    ensures var r := RunQueue(w, sock, queue, ctxs);
      && w.sent <= r.sent
      && RunQueue(Reply(w, sock, ExecHeader(queue)), sock, queue, ctxs) ==
         r.(sent := w.sent + [Sent(sock, ExecHeader(queue))] + r.sent[|w.sent|..])
  {
    hide Ok, RunQueue, Queueable, ExecHeader;
    ReplyOk(w, sock, ExecHeader(queue));
    var header := [Sent(sock, ExecHeader(queue))];
    var silent := w.(sent := []);
    SideOk(w, w.link, [], w.changes);
    assert After(w.sent, silent) == w;
    assert After(w.sent + header, silent) == Reply(w, sock, ExecHeader(queue)) by { HeaderText(queue); }
    RunQueueAfter(w.sent, silent, sock, queue, ctxs);
    RunQueueAfter(w.sent + header, silent, sock, queue, ctxs);
    var b := RunQueue(silent, sock, queue, ctxs);
    assert RunQueue(w, sock, queue, ctxs).sent[|w.sent|..] == b.sent;
  }

  lemma ExecArity()
    ensures CommandTable("exec") == Some(Def(CmdExec, 1, 1))
  {}

  lemma HeaderText(queue: seq<string>)
    ensures ExecHeader(queue) != ""
  {}

  lemma OneByOneNone(w: World, sock: int)
    requires Ok(w)
    ensures OneByOne(w, sock, [], []) == w
  {}

  // ---------- whole transactions ----------

  lemma TxTexts()
    ensures ReplyString("OK") == "+OK\r\n" && ReplyString("QUEUED") == "+QUEUED\r\n"
    ensures CommandTable("multi") == Some(Def(CmdMulti, 1, 1)) && CommandTable("discard") == Some(Def(CmdDiscard, 1, 1))
  {}

  /** MULTI raises the flag of its client and replies OK; nothing else changes. */
  lemma MultiOpens(w: World, sock: int, input: string, ctx: Context)
    requires Ok(w) && InTransaction(w, sock) == Some(false)
    requires |Tokens(input)| == 1 && Lower(Tokens(input)[0]) == "multi"
    ensures var i := FindSlot(w.clients, sock); var c := w.clients[i].value;
      Execute(w, sock, input, ctx) ==
      w.(clients := w.clients[i := Some(Client(c.id, c.socket, true, false, c.queue))],
         sent := w.sent + [Sent(sock, "+OK\r\n")])
  {
    hide Ok, Tokens, CommandTable, Lower, FindSlot;
    TxTexts();
    NameOfTokens(input);
    var argv := Tokens(input);
    SlotOf(w, sock);
    assert WellCalled(argv) && HandlerOf(argv) == CmdMulti;
    assert !IsKeyHandler(CmdMulti);
  }

  lemma SlotOf(w: World, sock: int)
    requires ClientOf(w, sock).Some?
    ensures var i := FindSlot(w.clients, sock); sock >= 0 && i < |w.clients| && w.clients[i] == ClientOf(w, sock)
    ensures ClientOf(w, sock).value.socket == sock
  {}

  /** In a transaction a line joins the queue of its client, is answered QUEUED, and does
      nothing else. */
  lemma QueuesLine(w: World, sock: int, input: string, ctx: Context)
    requires Ok(w) && InTransaction(w, sock) == Some(true) && Queueable(input)
    ensures var i := FindSlot(w.clients, sock); var c := w.clients[i].value;
      Execute(w, sock, input, ctx) ==
      w.(clients := w.clients[i := Some(Client(c.id, c.socket, true, c.errors, c.queue + [input]))],
         sent := w.sent + [Sent(sock, "+QUEUED\r\n")])
  {
    hide Ok, Tokens, CommandTable, FindSlot;
    TxTexts();
    SlotOf(w, sock);
  }

  /** DISCARD empties the queue, lowers the flag and replies OK twice; nothing else changes. */
  lemma DiscardCloses(w: World, sock: int, input: string, ctx: Context)
    requires Ok(w) && InTransaction(w, sock) == Some(true)
    requires |Tokens(input)| == 1 && Lower(Tokens(input)[0]) == "discard"
    ensures var i := FindSlot(w.clients, sock); var c := w.clients[i].value;
      Execute(w, sock, input, ctx) ==
      w.(clients := w.clients[i := Some(Client(c.id, c.socket, false, false, []))],
         sent := w.sent + [Sent(sock, "+OK\r\n"), Sent(sock, "+OK\r\n")])
  {
    hide Ok, Tokens, CommandTable, Lower, FindSlot;
    TxTexts();
    NameOfTokens(input);
    var argv := Tokens(input);
    SlotOf(w, sock);
    assert WellCalled(argv) && HandlerOf(argv) == CmdDiscard;
    assert !IsKeyHandler(CmdDiscard);
    assert (w.sent + [Sent(sock, "+OK\r\n")]) + [Sent(sock, "+OK\r\n")] == w.sent + [Sent(sock, "+OK\r\n"), Sent(sock, "+OK\r\n")];
  }

  function QueuedReplies(sock: int, n: nat): seq<Sent> { seq(n, _ => Sent(sock, "+QUEUED\r\n")) }

  /** So do several lines, in order. */
  lemma {:induction false} QueuesLines(w: World, sock: int, lines: seq<string>, ctxs: seq<Context>)
    requires Ok(w) && InTransaction(w, sock) == Some(true)
    requires |ctxs| == |lines| && forall k :: 0 <= k < |lines| ==> Queueable(lines[k])
    ensures var i := FindSlot(w.clients, sock); var c := w.clients[i].value;
      OneByOne(w, sock, lines, ctxs) ==
      w.(clients := w.clients[i := Some(Client(c.id, c.socket, true, c.errors, c.queue + lines))],
         sent := w.sent + QueuedReplies(sock, |lines|))
    decreases |lines|
  {
    hide Ok, Queueable, Execute, FindSlot, OneByOne, QueuedReplies;
    SlotOf(w, sock);
    var i := FindSlot(w.clients, sock);
    var c := w.clients[i].value;
    if lines == [] {
      assert c.queue + [] == c.queue && c == Client(c.id, c.socket, true, c.errors, c.queue);
      assert w.clients[i := Some(c)] == w.clients;
      OneByOneNone(w, sock);
      NoneQueued(sock);
      assert w.sent + [] == w.sent;
    } else {
      var n := |lines| - 1;
      QueuesLines(w, sock, lines[..n], ctxs[..n]);
      var w1 := OneByOne(w, sock, lines[..n], ctxs[..n]);
      var c1 := Client(c.id, c.socket, true, c.errors, c.queue + lines[..n]);
      SlotChanged(w, w1, sock, c1);
      assert Queueable(lines[n]);
      QueuesLine(w1, sock, lines[n], ctxs[n]);
      OneByOneNext(w, sock, lines[..n], ctxs[..n], lines[n], ctxs[n]);
      assert lines == lines[..n] + [lines[n]] && ctxs == ctxs[..n] + [ctxs[n]];
      assert (c.queue + lines[..n]) + [lines[n]] == c.queue + lines;
      OneMoreQueued(w.sent, sock, n);
    }
  }

  lemma NoneQueued(sock: int)
    ensures QueuedReplies(sock, 0) == []
  {}

  lemma OneMoreQueued(sent: seq<Sent>, sock: int, n: nat)
    ensures (sent + QueuedReplies(sock, n)) + [Sent(sock, "+QUEUED\r\n")] == sent + QueuedReplies(sock, n + 1)
  {
    assert QueuedReplies(sock, n) + [Sent(sock, "+QUEUED\r\n")] == QueuedReplies(sock, n + 1);
  }

  /** After a change of the client in its slot, its socket still finds it there. */
  lemma SlotChanged(w: World, w1: World, sock: int, c: Client)
    requires ClientOf(w, sock).Some? && c.socket == sock
    requires w1.clients == w.clients[FindSlot(w.clients, sock) := Some(c)]
    ensures FindSlot(w1.clients, sock) == FindSlot(w.clients, sock) && ClientOf(w1, sock) == Some(c)
  {
    FindSlotIs(w1.clients, sock, FindSlot(w.clients, sock));
  }

  lemma {:induction false} OneByOneAfter(log: seq<Sent>, w: World, sock: int, lines: seq<string>, ctxs: seq<Context>)
    requires Ok(w) && Ok(After(log, w)) && |ctxs| == |lines|
    ensures OneByOne(After(log, w), sock, lines, ctxs) == After(log, OneByOne(w, sock, lines, ctxs))
    decreases |lines|
  {
    hide Ok, Execute, After;
    if lines != [] {
      var n := |lines| - 1;
      OneByOneAfter(log, w, sock, lines[..n], ctxs[..n]);
      var w1 := OneByOne(w, sock, lines[..n], ctxs[..n]);
      AfterOk(log, w1);
      ExecuteAfter(log, w1, sock, lines[n], ctxs[n]);
    }
  }

  lemma {:induction false} OneByOneSplit(w: World, sock: int, a: seq<string>, b: seq<string>, ca: seq<Context>, cb: seq<Context>)
    requires Ok(w) && |ca| == |a| && |cb| == |b|
    ensures OneByOne(w, sock, a + b, ca + cb) == OneByOne(OneByOne(w, sock, a, ca), sock, b, cb)
    decreases |b|
  {
    hide Ok, Execute;
    if b == [] {
      assert a + b == a && ca + cb == ca;
    } else {
      var n := |b| - 1;
      OneByOneSplit(w, sock, a, b[..n], ca, cb[..n]);
      assert a + b == (a + b[..n]) + [b[n]] && ca + cb == (ca + cb[..n]) + [cb[n]];
      OneByOneNext(w, sock, a + b[..n], ca + cb[..n], b[n], cb[n]);
    }
  }

  /** What a client is sent for MULTI and n lines, then by EXEC before the lines run. */
  function ExecReplies(sock: int, n: nat): seq<Sent> {
    [Sent(sock, "+OK\r\n")] + QueuedReplies(sock, n) + [Sent(sock, "*" + Decimal(n) + "\r\n")]
  }

  /** What a client is sent for MULTI, n lines and DISCARD. */
  function DiscardReplies(sock: int, n: nat): seq<Sent> {
    [Sent(sock, "+OK\r\n")] + QueuedReplies(sock, n) + [Sent(sock, "+OK\r\n"), Sent(sock, "+OK\r\n")]
  }

  /** A client's first line, some more, and a last one, one by one. */
  function Dialogue(w: World, sock: int, first: string, lines: seq<string>, last: string,
                    firstCtx: Context, ctxs: seq<Context>, lastCtx: Context): World
    requires Ok(w) && |ctxs| == |lines|
  {
    OneByOne(w, sock, [first] + lines + [last], [firstCtx] + ctxs + [lastCtx])
  }

  /** A client at rest: no transaction, nothing queued, no errors. */
  predicate AtRest(w: World, sock: int) {
    ClientOf(w, sock).Some? && var c := ClientOf(w, sock).value; !c.inTransaction && !c.errors && c.queue == []
  }

  /** MULTI and any lines: the lines wait in the queue, and nothing else has changed. */
  lemma OpenedWorld(w: World, sock: int, multi: string, lines: seq<string>, multiCtx: Context, lineCtxs: seq<Context>)
    requires Ok(w) && AtRest(w, sock)
    requires |Tokens(multi)| == 1 && Lower(Tokens(multi)[0]) == "multi"
    requires |lineCtxs| == |lines| && forall k :: 0 <= k < |lines| ==> Queueable(lines[k])
    ensures var i := FindSlot(w.clients, sock); var c := w.clients[i].value;
      OneByOne(w, sock, [multi] + lines, [multiCtx] + lineCtxs) ==
      w.(clients := w.clients[i := Some(Client(c.id, sock, true, false, lines))],
         sent := w.sent + [Sent(sock, "+OK\r\n")] + QueuedReplies(sock, |lines|))
    ensures Ok(OneByOne(w, sock, [multi] + lines, [multiCtx] + lineCtxs))
  {
    hide Ok, Queueable, Execute, FindSlot, Tokens, QueuedReplies, Lower;
    SlotOf(w, sock);
    MultiOpens(w, sock, multi, multiCtx);
    var i := FindSlot(w.clients, sock);
    var c := w.clients[i].value;
    var w1 := Execute(w, sock, multi, multiCtx);
    JustOne(w, sock, multi, multiCtx);
    SlotChanged(w, w1, sock, Client(c.id, sock, true, false, []));
    QueuesLines(w1, sock, lines, lineCtxs);
    OneByOneSplit(w, sock, [multi], lines, [multiCtx], lineCtxs);
    assert [] + lines == lines;
    assert w.clients[i := Some(Client(c.id, sock, true, false, []))][i := Some(Client(c.id, sock, true, false, lines))] ==
           w.clients[i := Some(Client(c.id, sock, true, false, lines))];
  }

  lemma JustOne(w: World, sock: int, line: string, ctx: Context)
    requires Ok(w)
    ensures OneByOne(w, sock, [line], [ctx]) == Execute(w, sock, line, ctx)
  {
    hide Ok, Execute;
    OneByOneNone(w, sock);
    OneByOneNext(w, sock, [], [], line, ctx);
    assert [] + [line] == [line] && [] + [ctx] == [ctx];
  }

  /** MULTI, any lines, EXEC: the world is the one in which the lines ran one by one outside
      a transaction, and before what they send, the client is sent OK, QUEUED for each
      line, and their number. */
  lemma TransactionRuns(w: World, sock: int, multi: string, lines: seq<string>, exec: string,
                        multiCtx: Context, lineCtxs: seq<Context>, execCtx: Context)
    requires Ok(w) && AtRest(w, sock)
    requires |Tokens(multi)| == 1 && Lower(Tokens(multi)[0]) == "multi"
    requires |Tokens(exec)| == 1 && Lower(Tokens(exec)[0]) == "exec"
    requires |lineCtxs| == |execCtx.lines| == |lines| && forall k :: 0 <= k < |lines| ==> Queueable(lines[k])
    ensures var r := OneByOne(w, sock, lines, execCtx.lines);
      && w.sent <= r.sent
      && Dialogue(w, sock, multi, lines, exec, multiCtx, lineCtxs, execCtx) ==
         r.(sent := w.sent + ExecReplies(sock, |lines|) + r.sent[|w.sent|..])
  {
    hide Ok, Queueable, Execute, FindSlot, Tokens, QueuedReplies, Lower, OneByOne, Decimal;
    OpenedWorld(w, sock, multi, lines, multiCtx, lineCtxs);
    NameOfTokens(exec);
    SlotOf(w, sock);
    var i := FindSlot(w.clients, sock);
    var c := w.clients[i].value;
    var w2 := OneByOne(w, sock, [multi] + lines, [multiCtx] + lineCtxs);
    SlotChanged(w, w2, sock, Client(c.id, sock, true, false, lines));
    OneByOneNext(w, sock, [multi] + lines, [multiCtx] + lineCtxs, exec, execCtx);
    ExecIsSequential(w2, sock, exec, execCtx, execCtx.lines);
    var before := [Sent(sock, "+OK\r\n")] + QueuedReplies(sock, |lines|);
    var outside := w.(sent := w.sent + before);
    assert SetClient(w2, Cleaned(Client(c.id, sock, true, false, lines))) == outside by {
      assert w2.clients[i := Some(c)] == w.clients;
      assert (w.sent + [Sent(sock, "+OK\r\n")]) + QueuedReplies(sock, |lines|) == w.sent + before;
    }
    Shifted(w, sock, lines, execCtx.lines, before);
    var r := OneByOne(w, sock, lines, execCtx.lines);
    var r2 := OneByOne(outside, sock, lines, execCtx.lines);
    var header := [Sent(sock, ExecHeader(lines))];
    assert r.sent[|w.sent|..] == r2.sent[|outside.sent|..];
    assert ExecReplies(sock, |lines|) == before + header;
    Grouped(w.sent, before, header, r.sent[|w.sent|..]);
  }

  lemma Grouped(a: seq<Sent>, b: seq<Sent>, c: seq<Sent>, d: seq<Sent>)
    ensures (a + b) + c + d == a + (b + c) + d
  {}

  /** What lines do, and send, does not depend on what was sent before. */
  lemma Shifted(w: World, sock: int, lines: seq<string>, ctxs: seq<Context>, more: seq<Sent>)
    requires Ok(w) && |ctxs| == |lines|
    ensures Ok(w.(sent := w.sent + more))
    ensures var r := OneByOne(w, sock, lines, ctxs); var r' := OneByOne(w.(sent := w.sent + more), sock, lines, ctxs);
      && w.sent <= r.sent && w.sent + more <= r'.sent
      && r'.sent[|w.sent + more|..] == r.sent[|w.sent|..] && r' == r.(sent := r'.sent)
  {
    hide Ok, OneByOne;
    var silent := w.(sent := []);
    SideOk(w, w.link, [], w.changes);
    SideOk(w, w.link, w.sent + more, w.changes);
    assert After(w.sent, silent) == w && After(w.sent + more, silent) == w.(sent := w.sent + more);
    OneByOneAfter(w.sent, silent, sock, lines, ctxs);
    OneByOneAfter(w.sent + more, silent, sock, lines, ctxs);
  }

  /** MULTI, any lines, DISCARD: nothing has happened but the replies. */
  lemma TransactionDiscarded(w: World, sock: int, multi: string, lines: seq<string>, discard: string,
                             multiCtx: Context, lineCtxs: seq<Context>, discardCtx: Context)
    requires Ok(w) && AtRest(w, sock)
    requires |Tokens(multi)| == 1 && Lower(Tokens(multi)[0]) == "multi"
    requires |Tokens(discard)| == 1 && Lower(Tokens(discard)[0]) == "discard"
    requires |lineCtxs| == |lines| && forall k :: 0 <= k < |lines| ==> Queueable(lines[k])
    ensures Dialogue(w, sock, multi, lines, discard, multiCtx, lineCtxs, discardCtx) ==
      w.(sent := w.sent + DiscardReplies(sock, |lines|))
  {
    hide Ok, Queueable, Execute, FindSlot, Tokens, QueuedReplies, Lower, OneByOne;
    OpenedWorld(w, sock, multi, lines, multiCtx, lineCtxs);
    SlotOf(w, sock);
    var i := FindSlot(w.clients, sock);
    var c := w.clients[i].value;
    var w2 := OneByOne(w, sock, [multi] + lines, [multiCtx] + lineCtxs);
    SlotChanged(w, w2, sock, Client(c.id, sock, true, false, lines));
    OneByOneNext(w, sock, [multi] + lines, [multiCtx] + lineCtxs, discard, discardCtx);
    DiscardCloses(w2, sock, discard, discardCtx);
    assert w2.clients[i := Some(c)] == w.clients;
  }

  // ---------- outside transactions every client is at rest ----------

  /** No errors, and nothing queued outside a transaction. */
  ghost predicate Rested(clients: seq<Option<Client>>) {
    forall i :: 0 <= i < |clients| && clients[i].Some? ==>
      !clients[i].value.errors && (!clients[i].value.inTransaction ==> clients[i].value.queue == [])
  }

  lemma RestedUpdate(clients: seq<Option<Client>>, i: nat, c: Client)
    requires Rested(clients) && i < |clients| && !c.errors && (!c.inTransaction ==> c.queue == [])
    ensures Rested(clients[i := Some(c)])
  {}

  lemma RestedClient(w: World, sock: int)
    requires Rested(w.clients) && ClientOf(w, sock).Some?
    ensures var c := ClientOf(w, sock).value; !c.errors && (!c.inTransaction ==> c.queue == [])
    ensures !ClientOf(w, sock).value.inTransaction ==> AtRest(w, sock)
  {}

  /** Whatever line arrives, it stays so. */
  lemma ExecuteRested(w: World, sock: int, input: string, ctx: Context)
    requires Ok(w) && Rested(w.clients)
    ensures Rested(Execute(w, sock, input, ctx).clients)
  {
    hide Ok, Rested, Tokens, CommandTable, Lower, ClientOf, Enqueue, Executor.Dispatch, ExecCmd, Reply;
    NameOfTokens(input);
    ReplyClients(w, sock);
    if Tokens(input) != [] && InTransaction(w, sock) == Some(true) && !IsTxName(Name(input)) {
      QueuesLine(w, sock, input, ctx);
      RestedClient(w, sock);
      SlotOf(w, sock);
      var c := ClientOf(w, sock).value;
      RestedUpdate(w.clients, FindSlot(w.clients, sock), Client(c.id, c.socket, true, c.errors, c.queue + [input]));
    } else if WellCalled(Tokens(input)) {
      if Name(input) == "exec" { ExecRested(w, sock, ctx); } else { DispatchRested(w, sock, Tokens(input), input, ctx); }
    }
  }

  lemma ReplyClients(w: World, sock: int)
    ensures forall bytes :: Reply(w, sock, bytes).clients == w.clients
  {}

  lemma ExecRested(w: World, sock: int, ctx: Context)
    requires Ok(w) && Rested(w.clients)
    ensures Rested(ExecCmd(w, sock, ctx).clients)
  {
    hide Ok, Rested, RunQueue, ExecHeader, Reply, Queueable, FindSlot;
    ReplyClients(w, sock);
    if InTransaction(w, sock) == Some(true) {
      SlotOf(w, sock);
      RestedClient(w, sock);
      ClientIsRegistered(w, sock);
      var c := ClientOf(w, sock).value;
      SetClientOk(w, Cleaned(c));
      var clean := SetClient(w, Cleaned(c));
      RestedUpdate(w.clients, FindSlot(w.clients, sock), Cleaned(c));
      ReplyClients(clean, sock);
      var ctxs := PerLine(ctx, |c.queue|);
      ResetNeverActs(w, sock, ctxs);
      var start := Reply(clean, sock, ExecHeader(c.queue));
      QueueKeepsClients(start, sock, c.queue, ctxs);
    }
  }

  lemma DispatchRested(w: World, sock: int, argv: seq<string>, input: string, ctx: Context)
    requires Ok(w) && Rested(w.clients) && WellCalled(argv) && Lower(argv[0]) != "exec"
    ensures Rested(Executor.Dispatch(w, sock, argv, input, ctx).clients)
  {
    hide Ok, Rested, RunCommand, WellCalled, HandlerOf, Feed, ClientOf, Lower, IsTxName, IsWriteName;
    RunCommandOk(w, sock, argv, ctx);
    if IsTxName(Lower(argv[0])) { TxCommandRested(w, sock, argv, ctx); }
  }

  lemma TxCommandRested(w: World, sock: int, argv: seq<string>, ctx: Context)
    requires Ok(w) && Rested(w.clients) && WellCalled(argv) && Lower(argv[0]) != "exec" && IsTxName(Lower(argv[0]))
    ensures Rested(RunCommand(w, sock, argv, ctx).world.clients)
  {
    hide Ok, Rested, CommandTable, Lower, FindSlot, Reply;
    ReplyClients(w, sock);
    var h := HandlerOf(argv);
    assert h == CmdMulti || h == CmdDiscard;
    if ClientOf(w, sock).Some? {
      SlotOf(w, sock);
      RestedClient(w, sock);
      var c := ClientOf(w, sock).value;
      var w1, w2 := SetClient(w, c.(inTransaction := true, errors := false)), SetClient(w, Cleaned(c));
      RestedUpdate(w.clients, FindSlot(w.clients, sock), c.(inTransaction := true, errors := false));
      RestedUpdate(w.clients, FindSlot(w.clients, sock), Cleaned(c));
      ReplyClients(w1, sock);
      ReplyClients(w2, sock);
      ReplyClients(Reply(w2, sock, ReplyString("OK")), sock);
    }
  }
}
