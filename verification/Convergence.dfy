/** A replica that has consumed what it was sent holds the primary's key-to-value map. */
module Convergence {
  import opened Text
  import opened Seqs
  import opened Tokenizer
  import opened SyncLine
  import opened Lines
  import opened HashTable
  import opened TableLaws
  import opened Commands
  import opened PubSub
  import opened Replication
  import opened Executor
  import opened Transactions
  import opened Lifecycle
  import opened KeyValues
  import opened KeyCommands
  import opened Snapshot

  // ---------- frames and lines ----------

  /** A propagated command without its closing CRLF. */
  function Body(input: string): (b: string)
    ensures Frame(input) == b + CRLF
  {
    if |input| >= 2 && input[|input| - 2..] == CRLF then
      assert input == input[..|input| - 2] + CRLF;
      input[..|input| - 2]
    else input
  }

  lemma OneLineSplit(b: string)
    requires NoCrlf(b)
    ensures SplitLines(b + CRLF) == Split([b], "")
  {
    var s := b + CRLF;
    forall j | 0 <= j < |b| ensures !CrlfAt(s, j) {
      if j + 1 < |b| { assert !CrlfAt(b, j); }
    }
    FindCrlfIs(s, |b|);
    assert s[..|b|] == b && s[|b| + 2..] == "";
    assert SplitLines("") == Split([], "");
  }

  /** The replica receives a propagated command as one line if and only if the command has
      no CRLF inside. */
  lemma FrameIsOneLine(input: string)
    ensures SplitLines(Frame(input)) == Split([Body(input)], "") <==> NoCrlf(Body(input))
  {
    var b := Body(input);
    if NoCrlf(b) {
      OneLineSplit(b);
    } else {
      var s := b + CRLF;
      var i := FindCrlf(s);
      var j :| 0 <= j < |b| && CrlfAt(b, j);
      assert CrlfAt(s, j);
      assert i <= j;
      FirstLine(s);
      assert |SplitLines(s).lines[0]| < |b|;
    }
  }

  lemma BodyTokens(input: string)
    ensures Tokens(Body(input)) == Tokens(input)
  {
    EolIrrelevant(Body(input));
  }

  /** An entry of the initial synchronisation arrives, as one line that reads back as its
      key and value, if and only if the two can be quoted and the value has no CRLF. */
  lemma EntryArrives(key: string, v: string)
    ensures (SplitLines(SetLine(key, v) + CRLF) == Split([SetLine(key, v)], "") && Tokens(SetLine(key, v)) == ["SET", key, v])
       <==> Sendable(key, v) && NoCrlf(v)
  {
    hide Tokens, SplitLines, Sendable, Wrapped;
    var line := SetLine(key, v);
    SetLineReadBack(key, v);
    EolIrrelevant(line);
    if Sendable(key, v) {
      SetLineCrlf(key, v);
      if NoCrlf(v) {
        OneLineSplit(line);
      } else {
        NotOneLine(line);
      }
    }
  }

  lemma NotOneLine(b: string)
    requires !NoCrlf(b)
    ensures SplitLines(b + CRLF) != Split([b], "")
  {
    var s := b + CRLF;
    var j :| 0 <= j < |b| && CrlfAt(b, j);
    assert CrlfAt(s, j);
    FirstLine(s);
  }

  /** Neither CR nor LF. */
  predicate NoEol(s: string) { forall i :: 0 <= i < |s| ==> s[i] != '\r' && s[i] != '\n' }

  lemma NoEolAppend(a: string, b: string)
    requires NoEol(a) && NoEol(b)
    ensures NoEol(a + b)
  {}

  lemma PlainNoEol(w: string)
    requires PlainWord(w)
    ensures NoEol(w)
  {
    assert forall i :: 0 <= i < |w| ==> !IsSpace(w[i]);
  }

  /** A line as sent is the value between two pieces without line ends. */
  lemma SetLineParts(key: string, v: string) returns (head: string, tail: string)
    requires PlainWord(key)
    ensures SetLine(key, v) == head + v + tail && NoEol(head) && NoEol(tail)
  {
    hide PlainWord, NeedsQuotes;
    tail := if NeedsQuotes(v) then "\"" else "";
    head := "SET " + key + " " + tail;
    PlainNoEol(key);
    NoEolAppend("SET ", key);
    NoEolAppend("SET " + key, " ");
    NoEolAppend("SET " + key + " ", tail);
    assert SetLine(key, v) == head + v + tail;
  }

  lemma InWindow(head: string, v: string, tail: string, i: nat)
    requires NoEol(head) && NoEol(tail)
    requires i < |head + v + tail| && CrlfAt(head + v + tail, i)
    ensures |head| <= i && i + 1 < |head| + |v|
  {
    var s := head + v + tail;
    assert forall k :: 0 <= k < |head| ==> s[k] == head[k];
    assert forall k :: 0 <= k < |tail| ==> s[|head| + |v| + k] == tail[k];
  }

  lemma SetLineWindow(key: string, v: string) returns (at: nat)
    requires Sendable(key, v)
    ensures var line := SetLine(key, v);
      && at + |v| <= |line| && line[at..at + |v|] == v
      && forall i :: 0 <= i < |line| && CrlfAt(line, i) ==> at <= i && i + 1 < at + |v|
  {
    hide SetLine, PlainWord, NoEol, SendableKey, SendableValue;
    KeyIsWord(key);
    var head, tail := SetLineParts(key, v);
    at := |head|;
    var line := SetLine(key, v);
    forall i | 0 <= i < |line| && CrlfAt(line, i) ensures at <= i && i + 1 < at + |v| { InWindow(head, v, tail, i); }
  }

  lemma WindowCrlf(line: string, v: string, at: nat)
    requires at + |v| <= |line| && line[at..at + |v|] == v
    requires forall i :: 0 <= i < |line| && CrlfAt(line, i) ==> at <= i && i + 1 < at + |v|
    ensures NoCrlf(line) <==> NoCrlf(v)
  {
    forall i | 0 <= i < |v| ensures v[i] == line[at + i] { assert line[at..at + |v|][i] == line[at + i]; }
    if !NoCrlf(v) {
      var i :| 0 <= i < |v| && CrlfAt(v, i);
      assert CrlfAt(line, at + i);
    }
    if !NoCrlf(line) {
      var i :| 0 <= i < |line| && CrlfAt(line, i);
      assert CrlfAt(v, i - at);
    }
  }

  lemma SetLineCrlf(key: string, v: string)
    requires Sendable(key, v)
    ensures NoCrlf(SetLine(key, v)) <==> NoCrlf(v)
  {
    hide SetLine, Sendable, NoCrlf;
    var at := SetLineWindow(key, v);
    WindowCrlf(SetLine(key, v), v, at);
  }

  /** With a CRLF inside, one command for the primary is two for the replica: the primary
      takes the second SET for a word after the value, the replica executes it. */
  lemma InteriorCrlfDiverges()
    ensures var s := "SET a 1\r\nSET b 2\r\n";
      && Frame(s) == s && !NoCrlf(Body(s))
      && KvLine(map[], s) == map["a" := "1"]
      && Replay(map[], NonEmpty(SplitLines(s).lines)) == map["a" := "1", "b" := "2"]
  {
    hide Tokens, KvLine, Replay, NonEmpty, SplitLines, SetLine, NoCrlf;
    var a, b := SetLine("a", "1"), SetLine("b", "2");
    TwoLines();
    TwoSets(a, b);
    SixWords();
    FirstSetWins("SET a 1\r\nSET b 2\r\n");
  }

  lemma TwoLines()
    ensures var s := "SET a 1\r\nSET b 2\r\n";
      && SetLine("a", "1") + CRLF + (SetLine("b", "2") + CRLF) == s
      && Frame(s) == s && !NoCrlf(Body(s))
  {
    var s := "SET a 1\r\nSET b 2\r\n";
    assert SetLine("a", "1") == "SET a 1" && SetLine("b", "2") == "SET b 2";
    assert s[|s| - 2..] == CRLF;
    assert CrlfAt(s[..|s| - 2], 7);
  }

  lemma FirstSetWins(s: string)
    requires Tokens(s) == ["SET", "a", "1", "SET", "b", "2"]
    ensures KvLine(map[], s) == map["a" := "1"]
  {
    hide Tokens;
    assert Lower("SET") == "set" && HandlerOf(Tokens(s)) == CmdSet;
  }

  /** A plain word before one space. */
  lemma WordThen(w: string, rest: string)
    requires PlainWord(w)
    ensures Tokens(w + (" " + rest)) == [w] + Tokens(rest)
  {
    hide Tokens;
    PlainFirst(w, " " + rest);
    LeadingSpace(" ", rest);
  }

  lemma SixWords()
    ensures Tokens("SET a 1\r\nSET b 2\r\n") == ["SET", "a", "1", "SET", "b", "2"]
  {
    hide Tokens;
    var second := "SET" + (" " + ("b" + (" " + "2")));
    EolIrrelevant(second);
    WordThen("SET", "b" + (" " + "2"));
    WordThen("b", "2");
    assert "2" + "" == "2";
    PlainFirst("2", "");
    NoTokens();
    var rest := second + CRLF;
    LeadingSpace(CRLF, rest);
    PlainFirst("1", CRLF + rest);
    WordThen("a", "1" + (CRLF + rest));
    WordThen("SET", "a" + (" " + ("1" + (CRLF + rest))));
    assert "SET" + (" " + ("a" + (" " + ("1" + (CRLF + rest))))) == "SET a 1\r\nSET b 2\r\n";
  }

  lemma TwoSets(a: string, b: string)
    requires a == SetLine("a", "1") && b == SetLine("b", "2")
    ensures Replay(map[], NonEmpty(SplitLines(a + CRLF + (b + CRLF)).lines)) == map["a" := "1", "b" := "2"]
  {
    hide Tokens, KvLine, Replay, NonEmpty, SplitLines;
    assert Sendable("a", "1") && Sendable("b", "2");
    OneLineSplit(a);
    OneLineSplit(b);
    SplitAppend(a + CRLF, b + CRLF);
    assert "" + (b + CRLF) == b + CRLF;
    OneLine(a);
    OneLine(b);
    NonEmptyAppend([a], [b]);
    SetLineKv("a", "1", map[]);
    SetLineKv("b", "2", map["a" := "1"]);
    ReplayAppend(map[], [a], [b]);
    ReplayOne(map[], a);
    ReplayOne(map["a" := "1"], b);
    assert map[]["a" := "1"]["b" := "2"] == map["a" := "1", "b" := "2"];
  }

  // ---------- what a socket is sent ----------

  function StreamTo(r: int, sent: seq<Sent>): string {
    if sent == [] then ""
    else StreamTo(r, sent[..|sent| - 1]) + if sent[|sent| - 1].to == r then sent[|sent| - 1].bytes else ""
  }

  lemma {:induction false} StreamAppend(r: int, a: seq<Sent>, b: seq<Sent>)
    ensures StreamTo(r, a + b) == StreamTo(r, a) + StreamTo(r, b)
  {
    if b == [] {
      assert a + b == a;
    } else {
      assert (a + b)[..|a + b| - 1] == a + b[..|b| - 1];
      StreamAppend(r, a, b[..|b| - 1]);
    }
  }

  /** A piece of stream that ends with a complete line, and what its lines do to a map. */
  ghost predicate Carries(d: string, before: Kv, after: Kv) {
    SplitLines(d).tail == "" && Replay(before, NonEmpty(SplitLines(d).lines)) == after
  }

  lemma CarriesNothing(m: Kv)
    ensures Carries("", m, m)
  {}

  lemma CarriesOn(a: string, b: string, m0: Kv, m1: Kv, m2: Kv)
    requires Carries(a, m0, m1) && Carries(b, m1, m2)
    ensures Carries(a + b, m0, m2)
  {
    hide SplitLines, NonEmpty, Replay;
    SplitAppend(a, b);
    assert "" + b == b;
    NonEmptyAppend(SplitLines(a).lines, SplitLines(b).lines);
    ReplayAppend(m0, NonEmpty(SplitLines(a).lines), NonEmpty(SplitLines(b).lines));
  }

  lemma CarriesLine(b: string, m: Kv)
    requires NoCrlf(b)
    ensures Carries(b + CRLF, m, KvLine(m, b))
  {
    hide KvLine, Tokens;
    OneLineSplit(b);
    OneLine(b);
    if b == "" {
      assert KvLine(m, b) == m by { EmptyLine(m); }
    } else {
      ReplayOne(m, b);
    }
  }

  lemma ReplayOne(m: Kv, b: string)
    ensures Replay(m, [b]) == KvLine(m, b) && Replay(m, []) == m
  {}

  lemma EmptyLine(m: Kv)
    ensures KvLine(m, "") == m
  {}

  /** Reply lines name no command of the table. */
  lemma CarriesReply(text: string, m: Kv)
    requires NoCrlf(text)
    ensures Carries(ReplyString(text), m, m) && Carries(ReplyError(text), m, m)
  {
    forall c | c == '+' || c == '-' ensures Carries([c] + text + CRLF, m, m) {
      var b := [c] + text;
      forall i | 0 <= i < |b| ensures !CrlfAt(b, i) { if i > 0 { assert CrlfAt(b, i) == CrlfAt(text, i - 1); } }
      CarriesLine(b, m);
      SignedLine(b, m);
    }
    assert ReplyString(text) == ['+'] + text + CRLF && ReplyError(text) == ['-'] + text + CRLF;
  }

  lemma SignedLine(b: string, m: Kv)
    requires b != "" && (b[0] == '+' || b[0] == '-')
    ensures KvLine(m, b) == m
  {
    assert Tokens(b)[0][0] == b[0];
    assert Lower(Tokens(b)[0])[0] == b[0];
    NoSuchCommand(Lower(Tokens(b)[0]));
  }

  lemma NoSuchCommand(name: string)
    requires name != "" && (name[0] == '+' || name[0] == '-')
    ensures CommandTable(name).None?
  {}

  // ---------- the feed reaches an attached replica exactly once ----------

  lemma {:induction false} FeedMisses(replicas: seq<int>, frame: string, env: Env, r: int)
    requires r !in replicas
    ensures StreamTo(r, FeedWrites(replicas, frame, env)) == ""
  {
    if replicas != [] {
      FeedMisses(replicas[1..], frame, env, r);
      var first := if Write(replicas[0], env) == Full then [Sent(replicas[0], frame)] else [];
      StreamAppend(r, first, FeedWrites(replicas[1..], frame, env));
      assert StreamTo(r, []) == "";
    }
  }

  /** A replica listed once is sent the frame once if its write is full, and else nothing. */
  lemma {:induction false} FeedOnce(replicas: seq<int>, frame: string, env: Env, r: int)
    requires multiset(replicas)[r] == 1
    ensures StreamTo(r, FeedWrites(replicas, frame, env)) == if Write(r, env) == Full then frame else ""
  {
    hide Write, StreamTo;
    OneLess(replicas, r);
    var first := if Write(replicas[0], env) == Full then [Sent(replicas[0], frame)] else [];
    StreamAppend(r, first, FeedWrites(replicas[1..], frame, env));
    FirstSent(r, replicas[0], frame);
    if replicas[0] == r {
      FeedMisses(replicas[1..], frame, env, r);
    } else {
      FeedOnce(replicas[1..], frame, env, r);
    }
  }

  lemma OneLess(replicas: seq<int>, r: int)
    requires multiset(replicas)[r] == 1
    ensures replicas != []
    ensures if replicas[0] == r then r !in replicas[1..] else multiset(replicas[1..])[r] == 1
  {
    assert replicas == [replicas[0]] + replicas[1..];
    assert r !in multiset(replicas[1..]) ==> r !in replicas[1..];
  }

  lemma FirstSent(r: int, fd: int, frame: string)
    ensures StreamTo(r, []) == "" && StreamTo(r, [Sent(fd, frame)]) == if fd == r then frame else ""
  {
    assert StreamTo(r, []) == "";
  }

  // ---------- a primary that serves a replica ----------

  /** REPLICAOF with a host and a port it accepts, after which the server is a replica. */
  predicate Demotes(argv: seq<string>) {
    && WellCalled(argv) && HandlerOf(argv) == CmdReplicaOf
    && !(Lower(argv[1]) == "no" && Lower(argv[2]) == "one") && 0 < Atoi(argv[2]) <= 65535
  }

  /** The line is not queued but runs a handler, other than EXEC's. */
  predicate RunsNow(w: World, sock: int, input: string) {
    && WellCalled(Tokens(input)) && Name(input) != "exec"
    && (InTransaction(w, sock) == Some(true) ==> IsTxName(Name(input)))
  }

  /** A successful write command: the line is sent on to the replicas. */
  predicate Propagates(w: World, sock: int, input: string, ctx: Context)
    requires Ok(w) && RunsNow(w, sock, input)
  {
    NameOfTokens(input);
    IsWriteName(Name(input)) && RunCommand(w, sock, Tokens(input), ctx).ok
  }

  /** A line of another client that a replica at r can follow: nothing has expired when it
      is looked at, the server stays a primary, and what is sent on has no CRLF inside and
      is written in full. */
  ghost predicate CalmLine(w: World, sock: int, input: string, ctx: Context, r: int)
    requires Ok(w)
  {
    && Quiet(w.db, ctx.env.now)
    && (RunsNow(w, sock, input) ==>
          && !Demotes(Tokens(input))
          && (Propagates(w, sock, input, ctx) ==> NoCrlf(Body(input)) && Write(r, ctx.env) == Full))
  }

  /** The client at a socket, if any, is in no channel. */
  ghost predicate Unsubscribed(w: World, r: int) {
    forall i, c :: 0 <= i < |w.clients| && w.clients[i].Some? && w.clients[i].value.socket == r && 0 <= c < |w.channels| ==>
      w.clients[i].value.id !in w.channels[c].subs
  }

  /** A primary without a memory limit that feeds the replica at r, once. */
  ghost predicate Serving(w: World, r: int)
    ensures Serving(w, r) ==> Ok(w)
  {
    && Ok(w) && w.db.limit == 0 && w.link.primary && r >= 0
    && multiset(w.link.replicas)[r] == 1
    && Unsubscribed(w, r)
  }

  /** From w to w', the replica at r is sent a piece that carries the change of the map. */
  ghost predicate Fed(w: World, w': World, r: int, d: string)
    requires Wf(w.db) && Wf(w'.db)
  {
    StreamTo(r, w'.sent) == StreamTo(r, w.sent) + d && Carries(d, KV(w.db), KV(w'.db))
  }

  lemma ReplySilent(w: World, sock: int, bytes: string, r: int)
    requires sock != r
    ensures StreamTo(r, Reply(w, sock, bytes).sent) == StreamTo(r, w.sent)
  {}

  lemma {:induction false} SentLinesSilent(fd: int, lines: seq<string>, r: int)
    requires fd != r
    ensures StreamTo(r, SentLines(fd, lines)) == ""
  {
    if lines != [] {
      SentLinesSilent(fd, lines[1..], r);
      StreamAppend(r, [Sent(fd, lines[0])], SentLines(fd, lines[1..]));
      assert StreamTo(r, []) == "";
    }
  }

  lemma {:induction false} SyncSilent(items: seq<Item>, fd: int, env: Env, r: int)
    requires fd != r
    ensures StreamTo(r, SyncWrites(items, fd, env)) == ""
  {
    hide EntryLines, Write;
    if items != [] {
      var n := |items| - 1;
      SyncSilent(items[..n], fd, env, r);
      SentLinesSilent(fd, EntryLines(items[n], env.now), r);
      assert StreamTo(r, []) == "";
      StreamAppend(r, SyncWrites(items[..n], fd, env),
        if Write(fd, env) == Full then SentLines(fd, EntryLines(items[n], env.now)) else []);
    }
  }

  lemma {:induction false} DeliverSilent(clients: seq<Option<Client>>, ids: seq<nat>, message: string, r: int)
    requires forall s :: s in ids ==> s in Ids(clients)
    requires forall i, s :: 0 <= i < |clients| && clients[i].Some? && s in ids && clients[i].value.id == s ==>
      clients[i].value.socket != r
    ensures StreamTo(r, Deliver(clients, ids, message)) == ""
  {
    if ids != [] {
      assert ids[0] in Ids(clients);
      assert forall s :: s in ids[1..] ==> s in ids;
      DeliverSilent(clients, ids[1..], message, r);
      assert ids[0] in ids && FindId(clients, ids[0]) < |clients|;
      var first := [Sent(clients[FindId(clients, ids[0])].value.socket, message)];
      assert StreamTo(r, first) == StreamTo(r, []) + if first[0].to == r then message else "";
      StreamAppend(r, first, Deliver(clients, ids[1..], message));
      assert StreamTo(r, []) == "";
    }
  }

  lemma PublishSilent(w: World, sock: int, argv: seq<string>, r: int)
    requires Ok(w) && Unsubscribed(w, r) && sock != r && |argv| == 3
    ensures StreamTo(r, PublishCmd(w, sock, argv).world.sent) == StreamTo(r, w.sent)
  {
    hide Ok, Ids, Message, Decimal;
    var to := Receivers(w.channels, argv[1]);
    var message := Message(argv[1], argv[2]);
    ReceiversLive(w, argv[1]);
    DeliverSilent(w.clients, to, message, r);
    StreamAppend(r, w.sent, Deliver(w.clients, to, message));
    ReplySilent(w.(sent := w.sent + Deliver(w.clients, to, message)), sock, ReplyInteger(|to|), r);
  }

  lemma ReplConfSilent(w: World, sock: int, argv: seq<string>, ctx: Context, r: int)
    requires sock != r && |argv| >= 2
    ensures StreamTo(r, ReplConfCmd(w, sock, argv, ctx).world.sent) == StreamTo(r, w.sent)
    ensures multiset(ReplConfCmd(w, sock, argv, ctx).world.link.replicas)[r] == multiset(w.link.replicas)[r]
  {
    hide SyncWrites, Flatten;
    var writes := SyncWrites(Flatten(w.db.rows), sock, ctx.env);
    SyncSilent(Flatten(w.db.rows), sock, ctx.env, r);
    StreamAppend(r, w.sent, writes);
    var w' := w.(link := w.link.(replicas := [sock] + w.link.replicas), sent := w.sent + writes);
    ReplySilent(w', sock, ReplyString("OK"), r);
    ReplySilent(w, sock, ReplyString("OK"), r);
    assert multiset([sock] + w.link.replicas) == multiset{sock} + multiset(w.link.replicas);
  }

  // ---------- what other clients' commands keep ----------

  /** What must not change besides the map: the log of r, and that r is served. */
  ghost predicate Keeps(w: World, w': World, r: int) {
    && StreamTo(r, w'.sent) == StreamTo(r, w.sent)
    && (w.link.primary ==> w'.link.primary)
    && multiset(w'.link.replicas)[r] == multiset(w.link.replicas)[r]
    && (Unsubscribed(w, r) ==> Unsubscribed(w', r))
  }

  lemma ReplyKeeps(w: World, w1: World, sock: int, bytes: string, r: int)
    requires sock != r && Keeps(w, w1, r)
    ensures Keeps(w, Reply(w1, sock, bytes), r)
  {
    hide StreamTo;
    ReplySilent(w1, sock, bytes, r);
  }

  lemma SetClientKeeps(w: World, c: Client, r: int)
    requires Ok(w) && ClientOf(w, c.socket).Some? && c.id == ClientOf(w, c.socket).value.id
    ensures Keeps(w, SetClient(w, c), r)
  {
    hide Ok, StreamTo;
  }

  lemma TxKeeps(w: World, sock: int, r: int)
    requires Ok(w) && sock != r
    ensures Keeps(w, MultiCmd(w, sock).world, r) && Keeps(w, DiscardCmd(w, sock).world, r)
  {
    hide Ok, StreamTo, Unsubscribed, SetClient, Reply, Keeps;
    KeepsSelf(w, r);
    if ClientOf(w, sock).Some? {
      var c := ClientOf(w, sock).value;
      var w1, w2 := SetClient(w, c.(inTransaction := true, errors := false)), SetClient(w, Cleaned(c));
      SetClientKeeps(w, c.(inTransaction := true, errors := false), r);
      SetClientKeeps(w, Cleaned(c), r);
      ReplyKeeps(w, w1, sock, ReplyString("OK"), r);
      ReplyKeeps(w, w2, sock, ReplyString("OK"), r);
      ReplyKeeps(w, Reply(w2, sock, ReplyString("OK")), sock, ReplyString("OK"), r);
    }
    ReplyKeeps(w, w, sock, ReplyError("ERR client not found"), r);
    ReplyKeeps(w, w, sock, ReplyError("ERR MULTI calls can not be nested"), r);
    ReplyKeeps(w, w, sock, ReplyError("ERR DISCARD without MULTI"), r);
  }

  lemma KeepsSelf(w: World, r: int)
    ensures Keeps(w, w, r)
  {}

  /** Another client's subscriptions do not subscribe the client at r. */
  lemma ChannelsKeep(w: World, sock: int, channels: seq<Channel>, r: int)
    requires Ok(w) && sock != r && ClientOf(w, sock).Some?
    requires forall c, s :: 0 <= c < |channels| && s in channels[c].subs && s != ClientOf(w, sock).value.id ==>
      exists c' :: 0 <= c' < |w.channels| && s in w.channels[c'].subs
    ensures Keeps(w, w.(channels := channels), r)
  {
    hide StreamTo;
    var id := ClientOf(w, sock).value.id;
    var w' := w.(channels := channels);
    if Unsubscribed(w, r) {
      forall i, c | 0 <= i < |w.clients| && w.clients[i].Some? && w.clients[i].value.socket == r && 0 <= c < |channels|
        ensures w.clients[i].value.id !in channels[c].subs
      {
        assert w.clients[i].value.id != id;
      }
    }
  }

  /** Subscribers after a command of one client: that client and earlier subscribers. */
  ghost predicate NoNewSubs(channels: seq<Channel>, channels': seq<Channel>, id: nat) {
    forall c, s :: 0 <= c < |channels'| && s in channels'[c].subs && s != id ==>
      exists c' :: 0 <= c' < |channels| && s in channels[c'].subs
  }

  lemma SubscribeNoNew(channels: seq<Channel>, id: nat, name: string)
    ensures NoNewSubs(channels, Subscribe(channels, id, name), id)
  {
    var all := WithChannel(channels, name);
    var r := Subscribe(channels, id, name);
    forall c, s | 0 <= c < |r| && s in r[c].subs && s != id
      ensures exists c' :: 0 <= c' < |channels| && s in channels[c'].subs
    {
      assert s in all[c].subs;
      if |all| == |channels| { assert all[c] == channels[c]; } else { assert all[c] == channels[c - 1]; }
    }
  }

  lemma {:induction false} SubscribeAllNoNew(channels: seq<Channel>, id: nat, names: seq<string>)
    ensures NoNewSubs(channels, SubscribeAll(channels, id, names), id)
    decreases |names|
  {
    hide Subscribe;
    if names != [] {
      SubscribeNoNew(channels, id, names[0]);
      SubscribeAllNoNew(Subscribe(channels, id, names[0]), id, names[1..]);
    }
  }

  lemma UnsubscribeNoNew(channels: seq<Channel>, id: nat, name: string)
    ensures NoNewSubs(channels, Unsubscribe(channels, id, name), id)
  {
    var r := Unsubscribe(channels, id, name);
    forall c, s | 0 <= c < |r| && s in r[c].subs && s != id
      ensures exists c' :: 0 <= c' < |channels| && s in channels[c'].subs
    {
      RemoveFirstSub(channels[c].subs, id, s);
      assert s in channels[c].subs;
    }
  }

  lemma RemoveFirstSub(subs: seq<nat>, id: nat, s: nat)
    ensures s in RemoveFirst(subs, id) ==> s in subs
  {}

  lemma {:induction false} UnsubscribeNamesNoNew(channels: seq<Channel>, id: nat, names: seq<string>)
    ensures NoNewSubs(channels, UnsubscribeNames(channels, id, names).0, id)
    decreases |names|
  {
    hide Unsubscribe;
    if names != [] {
      UnsubscribeNoNew(channels, id, names[0]);
      UnsubscribeNamesNoNew(Unsubscribe(channels, id, names[0]), id, names[1..]);
    }
  }

  lemma RemoveClientNoNew(channels: seq<Channel>, id: nat)
    ensures NoNewSubs(channels, RemoveClient(channels, id), id)
  {
    var r := RemoveClient(channels, id);
    forall c, s | 0 <= c < |r| && s in r[c].subs && s != id
      ensures exists c' :: 0 <= c' < |channels| && s in channels[c'].subs
    {
      RemoveFirstSub(channels[c].subs, id, s);
    }
  }

  lemma SubscriptionsKeep(w: World, sock: int, argv: seq<string>, r: int)
    requires Ok(w) && sock != r && |argv| >= 1
    ensures |argv| >= 2 ==> Keeps(w, SubscribeCmd(w, sock, argv).world, r)
    ensures Keeps(w, UnsubscribeCmd(w, sock, argv).world, r)
  {
    hide Ok, StreamTo, Unsubscribed, Reply, Keeps, SubscribeAll, UnsubscribeNames, RemoveClient, SubscribeReplies,
      AllReplies;
    KeepsSelf(w, r);
    if ClientOf(w, sock).Some? {
      var id := ClientOf(w, sock).value.id;
      SubscribeAllNoNew(w.channels, id, argv[1..]);
      UnsubscribeNamesNoNew(w.channels, id, argv[1..]);
      RemoveClientNoNew(w.channels, id);
      var all := SubscribeAll(w.channels, id, argv[1..]);
      var (rest, replies) := UnsubscribeClient(w.channels, id, argv[1..]);
      ChannelsKeep(w, sock, all, r);
      ChannelsKeep(w, sock, rest, r);
      ReplyKeeps(w, w.(channels := all), sock, SubscribeReplies(argv[1..], 0), r);
      ReplyKeeps(w, w.(channels := rest), sock, replies, r);
    }
    ReplyKeeps(w, w, sock, ReplyError("err client not found for subscribe"), r);
    ReplyKeeps(w, w, sock, ReplyError("err client not found for unsubscribe"), r);
  }

  lemma CommandKeeps(w: World, sock: int, argv: seq<string>, ctx: Context, r: int)
    requires Ok(w) && Unsubscribed(w, r) && sock != r
    requires WellCalled(argv) && HandlerOf(argv) != CmdExec && !Demotes(argv)
    ensures Keeps(w, RunCommand(w, sock, argv, ctx).world, r)
  {
    hide Ok, StreamTo, Reply, Keeps, WellCalled, HandlerOf, MultiCmd, DiscardCmd, SubscribeCmd,
      UnsubscribeCmd, PublishCmd, ReplConfCmd, ReplicaOfCmd, Demotes, Handle, Decimal;
    KeepsSelf(w, r);
    TxKeeps(w, sock, r);
    SubscriptionsKeep(w, sock, argv, r);
    forall bytes ensures Keeps(w, Reply(w, sock, bytes), r) { ReplyKeeps(w, w, sock, bytes, r); }
    var h := HandlerOf(argv);
    if h == CmdPublish {
      PublishSilent(w, sock, argv, r);
      PublishKeeps(w, sock, argv, r);
    } else if h == CmdReplConf {
      ReplConfSilent(w, sock, argv, ctx, r);
      ReplConfKeeps(w, sock, argv, ctx, r);
    } else if h == CmdReplicaOf {
      ReplicaOfKeeps(w, sock, argv, ctx, r);
    } else if IsKeyHandler(h) {
      var w1 := w.(db := Handle(w.db, argv, ctx.env.now).table);
      DbKeeps(w, w1.db, r);
      ReplyKeeps(w, w1, sock, Handle(w.db, argv, ctx.env.now).reply, r);
    }
  }

  lemma ReplicaOfKeeps(w: World, sock: int, argv: seq<string>, ctx: Context, r: int)
    requires WellCalled(argv) && HandlerOf(argv) == CmdReplicaOf && !Demotes(argv) && sock != r
    ensures Keeps(w, ReplicaOfCmd(w, sock, argv, ctx).world, r)
  {
    hide StreamTo, Reply, WellCalled, HandlerOf, Atoi;
    ReplyKeeps(w, w.(link := w.link.(primary := true)), sock, ReplyString("OK"), r);
    ReplyKeeps(w, w, sock, ReplyError("ERR invalid port"), r);
  }

  lemma DbKeeps(w: World, db: Table, r: int)
    ensures Keeps(w, w.(db := db), r)
  {}

  lemma PublishKeeps(w: World, sock: int, argv: seq<string>, r: int)
    requires Ok(w) && |argv| == 3
    requires StreamTo(r, PublishCmd(w, sock, argv).world.sent) == StreamTo(r, w.sent)
    ensures Keeps(w, PublishCmd(w, sock, argv).world, r)
  {
    hide Ok, StreamTo, Deliver, Message, Decimal;
  }

  lemma ReplConfKeeps(w: World, sock: int, argv: seq<string>, ctx: Context, r: int)
    requires |argv| >= 2
    requires StreamTo(r, ReplConfCmd(w, sock, argv, ctx).world.sent) == StreamTo(r, w.sent)
    requires multiset(ReplConfCmd(w, sock, argv, ctx).world.link.replicas)[r] == multiset(w.link.replicas)[r]
    ensures Keeps(w, ReplConfCmd(w, sock, argv, ctx).world, r)
  {
    hide StreamTo, SyncWrites;
  }

  // ---------- one line of another client ----------

  /** A propagated command reaches the replica as its frame, once. */
  lemma PropagateFeeds(w: World, input: string, ctx: Context, r: int)
    requires w.link.primary && multiset(w.link.replicas)[r] == 1 && Write(r, ctx.env) == Full
    ensures var w' := Propagate(w, input, ctx);
      && StreamTo(r, w'.sent) == StreamTo(r, w.sent) + Frame(input)
      && w'.link.primary && multiset(w'.link.replicas)[r] == 1
      && w'.db == w.db && w'.clients == w.clients && w'.channels == w.channels
  {
    hide StreamTo, FeedWrites, RemoveFds, Doomed, Frame, Write;
    FeedKeeps(w.link, input, ctx.env, r);
    FeedOnce(w.link.replicas, Frame(input), ctx.env, r);
    StreamAppend(r, w.sent, FeedWrites(w.link.replicas, Frame(input), ctx.env));
  }

  lemma SilentFed(w: World, w': World, r: int)
    requires Wf(w.db) && Wf(w'.db) && StreamTo(r, w'.sent) == StreamTo(r, w.sent) && KV(w'.db) == KV(w.db)
    ensures Fed(w, w', r, "")
  {
    hide StreamTo, KV, Wf, Carries;
    CarriesNothing(KV(w.db));
    assert StreamTo(r, w.sent) + "" == StreamTo(r, w.sent);
  }

  lemma ServeDispatch(w: World, sock: int, input: string, ctx: Context, r: int) returns (d: string)
    requires Serving(w, r) && sock >= 0 && sock != r && RunsNow(w, sock, input) && CalmLine(w, sock, input, ctx, r)
    ensures var w' := Dispatch(w, sock, Tokens(input), input, ctx); Serving(w', r) && Fed(w, w', r, d)
  {
    hide Ok, Wf, KV, Quiet, Tokens, RunCommand, HandlerOf, WellCalled, StreamTo, Propagate, KvLine, Carries, Demotes,
      Unsubscribed, Lower;
    var argv := Tokens(input);
    NameOfTokens(input);
    RunCommandOk(w, sock, argv, ctx);
    HandlerNames(argv);
    CommandKeeps(w, sock, argv, ctx, r);
    LineKv(w, sock, input, ctx);
    var done := RunCommand(w, sock, argv, ctx);
    if IsWriteName(Name(input)) { SameClients(w, done.world, sock); }
    if Propagates(w, sock, input, ctx) {
      PropagateFeeds(done.world, input, ctx, r);
      PropagateServing(done.world, input, ctx, r);
      BodyTokens(input);
      CarriesLine(Body(input), KV(w.db));
      SameTokens(KV(w.db), Body(input), input);
      d := Frame(input);
    } else {
      SilentFed(w, done.world, r);
      d := "";
    }
  }

  lemma SameTokens(m: Kv, a: string, b: string)
    requires Tokens(a) == Tokens(b)
    ensures KvLine(m, a) == KvLine(m, b)
  {}

  lemma SameClients(w: World, w': World, sock: int)
    requires w'.clients == w.clients
    ensures InTransaction(w', sock) == InTransaction(w, sock)
  {}

  lemma HandlerNames(argv: seq<string>)
    requires WellCalled(argv)
    ensures HandlerOf(argv) == CmdReplicaOf ==> Lower(argv[0]) == "replicaof"
    ensures HandlerOf(argv) == CmdExec ==> Lower(argv[0]) == "exec"
  {}

  lemma PropagateServing(w: World, input: string, ctx: Context, r: int)
    requires Serving(w, r) && Write(r, ctx.env) == Full
    ensures Serving(Propagate(w, input, ctx), r)
  {
    hide Wf, ClientsOk, HubOk, SubsIn, StreamTo, Feed, Frame;
    PropagateFeeds(w, input, ctx, r);
    var w' := Propagate(w, input, ctx);
    assert w' == w.(link := w'.link, sent := w'.sent, changes := w'.changes);
    SideOk(w, w'.link, w'.sent, w'.changes);
  }

  /** The line starts a queue. */
  predicate RunsQueue(w: World, sock: int, input: string) {
    && WellCalled(Tokens(input)) && Name(input) == "exec"
    && InTransaction(w, sock) == Some(true) && !ClientOf(w, sock).value.errors
  }

  lemma EnqueueServes(w: World, sock: int, input: string, r: int)
    requires Serving(w, r) && sock >= 0 && sock != r && Queueable(input)
    requires ClientOf(w, sock).Some?
    ensures Serving(Enqueue(w, sock, input), r) && Keeps(w, Enqueue(w, sock, input), r)
    ensures Enqueue(w, sock, input).db == w.db
  {
    hide Ok, StreamTo, Queueable, Unsubscribed, SetClient, Reply;
    var c := ClientOf(w, sock).value;
    var c' := c.(queue := c.queue + [input]);
    SetClientKeeps(w, c', r);
    ReplyKeeps(w, SetClient(w, c'), sock, ReplyString("QUEUED"), r);
    ReplyDb(SetClient(w, c'), sock, ReplyString("QUEUED"));
    SetClientDb(w, c');
  }

  lemma SetClientDb(w: World, c: Client)
    ensures SetClient(w, c).db == w.db && SetClient(w, c).link == w.link && SetClient(w, c).sent == w.sent
    ensures SetClient(w, c).channels == w.channels
  {}

  /** A reply to another client changes nothing for the replica. */
  lemma ReplyServes(w: World, sock: int, bytes: string, r: int)
    requires Serving(w, r) && sock != r
    ensures Serving(Reply(w, sock, bytes), r) && Fed(w, Reply(w, sock, bytes), r, "")
  {
    hide Ok, Wf, KV, StreamTo, Carries;
    KeepsSelf(w, r);
    ReplyKeeps(w, w, sock, bytes, r);
    ReplyOk(w, sock, bytes);
    ReplyDb(w, sock, bytes);
    SilentFed(w, Reply(w, sock, bytes), r);
  }

  /** Any line of another client, unless it runs a queue. */
  lemma ServeLine(w: World, sock: int, input: string, ctx: Context, r: int) returns (d: string)
    requires Serving(w, r) && sock >= 0 && sock != r && CalmLine(w, sock, input, ctx, r) && !RunsQueue(w, sock, input)
    ensures var w' := Execute(w, sock, input, ctx); Serving(w', r) && Fed(w, w', r, d)
  {
    hide Ok, Wf, KV, Quiet, Tokens, StreamTo, Carries, Serving, Fed, Dispatch, Enqueue, Reply, CommandTable, Lower,
      HandlerOf, SetClient;
    d := "";
    NameOfTokens(input);
    forall bytes ensures Serving(Reply(w, sock, bytes), r) && Fed(w, Reply(w, sock, bytes), r, "") {
      ReplyServes(w, sock, bytes, r);
    }
    if Tokens(input) == [] {
    } else if InTransaction(w, sock) == Some(true) && !IsTxName(Name(input)) {
      EnqueueServes(w, sock, input, r);
      SilentEnqueue(w, sock, input, r);
    } else if CommandTable(Name(input)).None? || !Fits(CommandTable(Name(input)).value, |Tokens(input)|) {
    } else if Name(input) == "exec" {
      if InTransaction(w, sock) == Some(true) { ExecAborts(w, sock, ctx, r); }
    } else {
      d := ServeDispatch(w, sock, input, ctx, r);
    }
  }

  lemma SilentEnqueue(w: World, sock: int, input: string, r: int)
    requires Ok(w) && ClientOf(w, sock).Some? && Queueable(input)
    requires Keeps(w, Enqueue(w, sock, input), r) && Enqueue(w, sock, input).db == w.db
    ensures Fed(w, Enqueue(w, sock, input), r, "")
  {
    hide Ok, Enqueue, StreamTo, KV;
    SilentFed(w, Enqueue(w, sock, input), r);
  }

  /** EXEC after errors. */
  lemma ExecAborts(w: World, sock: int, ctx: Context, r: int)
    requires Serving(w, r) && sock != r && InTransaction(w, sock) == Some(true) && ClientOf(w, sock).value.errors
    ensures Serving(ExecCmd(w, sock, ctx), r) && Fed(w, ExecCmd(w, sock, ctx), r, "")
  {
    hide StreamTo, KV, Carries, Reply, SetClient, ClientsOk, HubOk, SubsIn, Ids, Unsubscribed, RunQueue;
    CleanedServes(w, sock, r);
    var clean := SetClient(w, Cleaned(ClientOf(w, sock).value));
    ReplyServes(clean, sock, ReplyError("EXECABORT Transaction discarded because of previous errors"), r);
  }

  lemma CleanedServes(w: World, sock: int, r: int)
    requires Serving(w, r) && ClientOf(w, sock).Some?
    ensures var clean := SetClient(w, Cleaned(ClientOf(w, sock).value));
      && Serving(clean, r) && clean.db == w.db && clean.sent == w.sent
      && ClientOf(clean, sock) == Some(Cleaned(ClientOf(w, sock).value))
  {
    hide Ok, StreamTo, Queueable, Unsubscribed, SetClient;
    var c := ClientOf(w, sock).value;
    ClientIsRegistered(w, sock);
    SetClientOk(w, Cleaned(c));
    SetClientKeeps(w, Cleaned(c), r);
    SetClientDb(w, Cleaned(c));
  }

  // ---------- a queue ----------

  /** Every line of a queue is calm when it runs. */
  ghost predicate CalmQueue(w: World, sock: int, queue: seq<string>, ctxs: seq<Context>, r: int)
    requires Ok(w) && |ctxs| == |queue|
    decreases |queue|
  {
    queue != [] ==>
      && CalmLine(w, sock, queue[0], ctxs[0], r)
      && CalmQueue(Execute(w, sock, queue[0], ctxs[0]), sock, queue[1..], ctxs[1..], r)
  }

  lemma FedOn(w0: World, w1: World, w2: World, r: int, d1: string, d2: string)
    requires Wf(w0.db) && Wf(w1.db) && Wf(w2.db) && Fed(w0, w1, r, d1) && Fed(w1, w2, r, d2)
    ensures Fed(w0, w2, r, d1 + d2)
  {
    hide StreamTo, KV, Carries, Wf;
    CarriesOn(d1, d2, KV(w0.db), KV(w1.db), KV(w2.db));
    assert (StreamTo(r, w0.sent) + d1) + d2 == StreamTo(r, w0.sent) + (d1 + d2);
  }

  lemma {:induction false} ServeQueue(w: World, sock: int, queue: seq<string>, ctxs: seq<Context>, r: int) returns (d: string)
    requires Serving(w, r) && sock >= 0 && sock != r && InTransaction(w, sock) != Some(true)
    requires |ctxs| == |queue| && forall k :: 0 <= k < |queue| ==> Queueable(queue[k])
    requires CalmQueue(w, sock, queue, ctxs, r)
    ensures var w' := RunQueue(w, sock, queue, ctxs); Serving(w', r) && Fed(w, w', r, d)
    decreases |queue|
  {
    hide KV, StreamTo, Carries, Serving, Fed, Execute, CalmLine, Tokens;
    if queue == [] {
      d := "";
      SilentFed(w, w, r);
    } else {
      assert Queueable(queue[0]);
      var d1 := ServeLine(w, sock, queue[0], ctxs[0], r);
      var w1 := Execute(w, sock, queue[0], ctxs[0]);
      QueuedLineKeepsClients(w, sock, queue[0], ctxs[0]);
      SameClients(w, w1, sock);
      var d2 := ServeQueue(w1, sock, queue[1..], ctxs[1..], r);
      FedOn(w, w1, RunQueue(w1, sock, queue[1..], ctxs[1..]), r, d1, d2);
      d := d1 + d2;
    }
  }

  /** The world in which an EXEC starts its queue. */
  function ExecStart(w: World, sock: int): (w': World)
    requires Ok(w) && ClientOf(w, sock).Some?
    ensures Ok(w')
  {
    var c := ClientOf(w, sock).value;
    ClientIsRegistered(w, sock);
    SetClientOk(w, Cleaned(c));
    Reply(SetClient(w, Cleaned(c)), sock, ExecHeader(c.queue))
  }

  lemma ServeExec(w: World, sock: int, input: string, ctx: Context, r: int) returns (d: string)
    requires Serving(w, r) && sock >= 0 && sock != r && RunsQueue(w, sock, input)
    requires var queue := ClientOf(w, sock).value.queue;
      CalmQueue(ExecStart(w, sock), sock, queue, PerLine(ctx, |queue|), r)
    ensures var w' := Execute(w, sock, input, ctx); Serving(w', r) && Fed(w, w', r, d)
  {
    hide Ok, KV, StreamTo, Carries, Serving, Fed, Queueable, Tokens, SetClient, Reply, CommandTable, RunQueue,
      CalmQueue, Decimal, PerLine;
    var c := ClientOf(w, sock).value;
    ClientIsRegistered(w, sock);
    CleanedServes(w, sock, r);
    var clean := SetClient(w, Cleaned(c));
    ReplyServes(clean, sock, ExecHeader(c.queue), r);
    var start := Reply(clean, sock, ExecHeader(c.queue));
    StartFed(w, clean, start, r);
    ReplyDb(clean, sock, ExecHeader(c.queue));
    SameClients(clean, start, sock);
    var ctxs := PerLine(ctx, |c.queue|);
    d := ServeQueue(start, sock, c.queue, ctxs, r);
    var run := RunQueue(start, sock, c.queue, ctxs);
    QueueKeepsClients(start, sock, c.queue, ctxs);
    SameClients(start, run, sock);
    FedOn(w, start, run, r, "", d);
    assert "" + d == d;
    assert InTransaction(run, sock) == Some(false);
    assert Execute(w, sock, input, ctx) == run;
  }

  lemma StartFed(w: World, clean: World, start: World, r: int)
    requires Ok(w) && Ok(clean) && Ok(start) && clean.db == w.db && clean.sent == w.sent && Fed(clean, start, r, "")
    ensures Fed(w, start, r, "")
  {}

  // ---------- whole runs of the primary ----------

  /** The replica's own connection says nothing the server knows, like PSYNC. */
  lemma ServeOwn(w: World, input: string, ctx: Context, r: int) returns (d: string)
    requires Serving(w, r) && CommandTable(Name(input)).None? && InTransaction(w, r) != Some(true)
    ensures var w' := Execute(w, r, input, ctx);
      Serving(w', r) && Fed(w, w', r, d) && w'.clients == w.clients
  {
    hide Ok, KV, Tokens, Carries, Unsubscribed, CommandTable;
    var text := if Tokens(input) == [] then "err empty command" else "err unknown command";
    d := ReplyError(text);
    assert NoCrlf(text) by { PlainTexts(); }
    CarriesReply(text, KV(w.db));
    ReplyOwn(w, text, r);
  }

  lemma PlainTexts()
    ensures NoCrlf("err empty command") && NoCrlf("err unknown command") && NoCrlf("OK")
  {}

  lemma ReplyOwn(w: World, text: string, r: int)
    requires Serving(w, r)
    ensures var w' := Reply(w, r, ReplyError(text));
      && Serving(w', r) && StreamTo(r, w'.sent) == StreamTo(r, w.sent) + ReplyError(text)
      && w'.db == w.db && w'.clients == w.clients
  {
    hide Ok;
    ReplyOk(w, r, ReplyError(text));
    assert (w.sent + [Sent(r, ReplyError(text))])[..|w.sent|] == w.sent;
  }

  /** The events of a run during which replication can be followed: other clients come, go
      and send calm lines, and nothing has expired when it is swept. */
  ghost predicate Calm(w: World, ev: Event, r: int)
    requires Ok(w)
  {
    match ev
    case Accept(s) => s != r
    case Hangup(s) => s != r
    case Tick(now) => Quiet(w.db, now)
    case Line(s, input, ctx) =>
      if s == r then CommandTable(Name(input)).None? && InTransaction(w, r) != Some(true)
      else if s >= 0 && RunsQueue(w, s, input) then
        var queue := ClientOf(w, s).value.queue;
        CalmQueue(ExecStart(w, s), s, queue, PerLine(ctx, |queue|), r)
      else s >= 0 && CalmLine(w, s, input, ctx, r)
  }

  lemma ServeTick(w: World, now: nat, r: int)
    requires Serving(w, r) && Quiet(w.db, now)
    ensures var w' := w.(db := Sweep(w.db, now)); Serving(w', r) && Fed(w, w', r, "")
  {
    hide ClientsOk, HubOk, SubsIn, Wf, StreamTo, Contents;
    SweepLaw(w.db, now);
    var w' := w.(db := Sweep(w.db, now));
    assert LiveOf(Contents(w.db), now) == Contents(w.db);
    SilentFed(w, w', r);
  }

  lemma ServeAccept(w: World, socket: int, r: int)
    requires Serving(w, r) && socket != r && Possible(w, Accept(socket))
    ensures Serving(Register(w, socket), r) && Fed(w, Register(w, socket), r, "")
  {
    hide Wf, HubOk, StreamTo, KV;
    RegisterOk(w, socket);
    var w' := Register(w, socket);
    assert Unsubscribed(w', r);
    SilentFed(w, w', r);
  }

  lemma ServeHangup(w: World, socket: int, r: int)
    requires Serving(w, r) && socket != r
    ensures Serving(Disconnect(w, socket), r) && Fed(w, Disconnect(w, socket), r, "")
  {
    hide Ok, StreamTo, KV;
    DisconnectOk(w, socket);
    var w' := Disconnect(w, socket);
    var i := FindSlot(w.clients, socket);
    if i < |w.clients| {
      forall k, c | 0 <= k < |w'.clients| && w'.clients[k].Some? && w'.clients[k].value.socket == r && 0 <= c < |w'.channels|
        ensures w'.clients[k].value.id !in w'.channels[c].subs
      {
        assert w.clients[k] == w'.clients[k];
        RemoveFirstSub(w.channels[c].subs, w.clients[i].value.id, w.clients[k].value.id);
      }
    }
    SilentFed(w, w', r);
  }

  lemma ServeEvent(w: World, ev: Event, r: int) returns (d: string)
    requires Serving(w, r) && Possible(w, ev) && Calm(w, ev, r)
    ensures Serving(Step(w, ev), r) && Fed(w, Step(w, ev), r, d)
  {
    hide Ok, KV, Serving, Fed, Execute, Register, Disconnect, Sweep, Quiet, CalmQueue, CalmLine, RunsQueue, PerLine,
      CommandTable;
    d := "";
    match ev
    case Accept(s) => ServeAccept(w, s, r);
    case Hangup(s) => ServeHangup(w, s, r);
    case Tick(now) => ServeTick(w, now, r);
    case Line(s, input, ctx) =>
      if s == r {
        d := ServeOwn(w, input, ctx, r);
      } else if RunsQueue(w, s, input) {
        d := ServeExec(w, s, input, ctx, r);
      } else {
        d := ServeLine(w, s, input, ctx, r);
      }
  }

  ghost predicate CalmRun(worlds: seq<World>, events: seq<Event>, r: int) {
    && IsRun(worlds, events)
    && forall i :: 0 <= i < |events| ==> Ok(worlds[i]) ==> Calm(worlds[i], events[i], r)
  }

  /** At every point of a run the replica has been sent, since the start, exactly a stream
      of complete lines that replays to the primary's map. */
  lemma {:induction false} ServeRun(worlds: seq<World>, events: seq<Event>, r: int, k: nat) returns (d: string)
    requires CalmRun(worlds, events, r) && k < |worlds| && Serving(worlds[0], r)
    ensures Serving(worlds[k], r) && Fed(worlds[0], worlds[k], r, d)
  {
    hide Ok, KV, Serving, Fed, Step, Calm, StreamTo;
    if k == 0 {
      d := "";
      SilentFed(worlds[0], worlds[0], r);
    } else {
      var d1 := ServeRun(worlds, events, r, k - 1);
      assert Calm(worlds[k - 1], events[k - 1], r) && worlds[(k - 1) + 1] == Step(worlds[k - 1], events[k - 1]);
      var d2 := ServeEvent(worlds[k - 1], events[k - 1], r);
      FedOn(worlds[0], worlds[k - 1], worlds[k], r, d1, d2);
      d := d1 + d2;
    }
  }

  // ---------- the initial synchronisation ----------

  /** An entry the synchronisation can carry. */
  predicate Portable(it: Item) { Sendable(it.key, it.obj.data) && NoCrlf(it.obj.data) }

  lemma SetLineKv(key: string, v: string, m: Kv)
    requires Sendable(key, v)
    ensures KvLine(m, SetLine(key, v)) == m[key := v]
  {
    hide Tokens, SetLine, Sendable;
    SetLineReadBack(key, v);
    EolIrrelevant(SetLine(key, v));
    var argv := ["SET", key, v];
    assert Lower("SET") == "set";
    assert HandlerOf(argv) == CmdSet;
  }

  lemma ExpireLineKv(key: string, seconds: nat, m: Kv)
    requires PlainWord(key)
    ensures KvLine(m, ExpireLine(key, seconds)) == m
  {
    hide Decimal, Tokens, WellCalled, HandlerOf;
    var line := ExpireLine(key, seconds);
    var rest := " " + key + " " + Decimal(seconds);
    assert line == "EXPIRE" + rest;
    PlainFirst("EXPIRE", rest);
    if IsKeyCommand(Tokens(line)) { ExpireName(Tokens(line)); }
  }

  lemma ExpireName(argv: seq<string>)
    requires argv != [] && argv[0] == "EXPIRE" && IsKeyCommand(argv)
    ensures HandlerOf(argv) == CmdExpire
  {
    assert Lower("EXPIRE") == "expire";
  }

  lemma ExpireLineReadBack(key: string, seconds: nat)
    requires SendableKey(key)
    ensures Tokens(ExpireLine(key, seconds) + CRLF) == ["EXPIRE", key, Decimal(seconds)]
  {
    hide Tokens, Digits, PlainWord, SendableKey;
    var n := Decimal(seconds);
    var line := ExpireLine(key, seconds);
    assert line == "EXPIRE" + (" " + (key + (" " + n)));
    KeyIsWord(key);
    NumberIsWord(seconds);
    assert PlainWord("EXPIRE") by { KeyIsWord("EXPIRE"); ExpireWord(); }
    EolIrrelevant(line);
    WordThen("EXPIRE", key + (" " + n));
    WordThen(key, n);
    PlainFirst(n, "");
    NoTokens();
    assert n + "" == n;
    assert ["EXPIRE"] + ([key] + ([n] + [])) == ["EXPIRE", key, n];
  }

  lemma ExpireWord()
    ensures SendableKey("EXPIRE")
  {}

  lemma NumberIsWord(n: nat)
    ensures PlainWord(Decimal(n))
  {
    hide Digits;
    var d := Decimal(n);
    assert forall i :: 0 <= i < |d| ==> d[i] in d && IsDigit(d[i]);
  }

  /** An entry that stays, or is in its last second, is sent as one line; one with n whole
      seconds left as two, the second of which makes it live n seconds from when a replica
      executes it, its value untouched. */
  lemma ExpirySent(it: Item, now: nat, replica: Table, later: nat)
    requires SendableKey(it.key) && !Expired(it.obj, now) && it.obj.expire < TWO63 && later < TWO63
    requires Wf(replica) && it.key in Contents(replica) && Contents(replica)[it.key].expire == 0
    ensures var lines := EntryLines(it, now);
      if it.obj.expire < now + 1000 then |lines| == 1
      else
        && |lines| == 2
        && var n := (it.obj.expire - now) / 1000; var argv := Tokens(lines[1]);
        && IsKeyCommand(argv)
        && var out := Handle(replica, argv, later);
        && Wf(out.table) && it.key in Contents(out.table)
        && Contents(out.table)[it.key].data == Contents(replica)[it.key].data
        && Contents(out.table)[it.key].expire == later + 1000 * n
  {
    hide Tokens, Wf, Contents, IsKeyCommand, Handle, Strtoll, Decimal, ExpireLine, SetLine, SendableKey;
    if it.obj.expire >= now + 1000 {
      var n := (it.obj.expire - now) / 1000;
      assert SecondsLeft(it.obj.expire, now) == n;
      ExpireLineReadBack(it.key, n);
      DecimalRoundTrip(n);
      assert Lower("EXPIRE") == "expire";
      ExpireStores(replica, ["EXPIRE", it.key, Decimal(n)], later);
    }
  }

  lemma ExpireLineCrlf(key: string, seconds: nat)
    requires PlainWord(key)
    ensures NoCrlf(ExpireLine(key, seconds))
  {
    hide Digits;
    var line, digits := ExpireLine(key, seconds), Decimal(seconds);
    assert forall i :: 0 <= i < |digits| ==> digits[i] in digits && IsDigit(digits[i]);
    forall i | 0 <= i < |line| ensures line[i] != '\r' {
      if 7 <= i < 7 + |key| { assert line[i] == key[i - 7] && !IsSpace(key[i - 7]); }
      else if i >= 8 + |key| { assert line[i] == digits[i - 8 - |key|]; }
    }
  }

  lemma EntryCarries(it: Item, now: nat, r: int, m: Kv)
    requires Portable(it) && !Expired(it.obj, now)
    ensures Carries(StreamTo(r, SentLines(r, EntryLines(it, now))), m, m[it.key := it.obj.data])
  {
    hide SetLine, ExpireLine, Carries, KvLine, SecondsLeft;
    var setLine := SetLine(it.key, it.obj.data);
    EntryArrives(it.key, it.obj.data);
    SetLineCrlf(it.key, it.obj.data);
    CarriesLine(setLine, m);
    SetLineKv(it.key, it.obj.data, m);
    StreamOne(r, setLine + CRLF);
    var s := SecondsLeft(it.obj.expire, now);
    if s > 0 {
      var expireLine := ExpireLine(it.key, s);
      var m' := m[it.key := it.obj.data];
      ExpireLineKv(it.key, s, m');
      ExpireLineCrlf(it.key, s);
      CarriesLine(expireLine, m');
      CarriesOn(setLine + CRLF, expireLine + CRLF, m, m', m');
      SentTwo(r, setLine + CRLF, expireLine + CRLF);
      StreamOne(r, expireLine + CRLF);
      StreamAppend(r, [Sent(r, setLine + CRLF)], [Sent(r, expireLine + CRLF)]);
    } else {
      assert [setLine + CRLF] + [] == [setLine + CRLF];
    }
  }

  lemma StreamOne(r: int, bytes: string)
    ensures SentLines(r, [bytes]) == [Sent(r, bytes)] && StreamTo(r, [Sent(r, bytes)]) == bytes
  {
    assert SentLines(r, []) == [];
    assert StreamTo(r, []) == "" && "" + bytes == bytes;
  }

  lemma {:induction false} SyncCarries(items: seq<Item>, env: Env, r: int)
    requires Write(r, env) == Full && DistinctKeys(items)
    requires forall i :: 0 <= i < |items| ==> Portable(items[i]) && !Expired(items[i].obj, env.now)
    ensures Carries(StreamTo(r, SyncWrites(items, r, env)), map[], Values(ToMap(items)))
  {
    hide Carries, EntryLines, SentLines, Write, Portable;
    if items == [] {
      CarriesNothing(map[]);
      assert Values(ToMap(items)) == map[];
    } else {
      var n := |items| - 1;
      SyncCarries(items[..n], env, r);
      var m := Values(ToMap(items[..n]));
      EntryCarries(items[n], env.now, r, m);
      var a, b := SyncWrites(items[..n], r, env), SentLines(r, EntryLines(items[n], env.now));
      StreamAppend(r, a, b);
      assert Values(ToMap(items)) == m[items[n].key := items[n].obj.data];
      CarriesOn(StreamTo(r, a), StreamTo(r, b), map[], m, m[items[n].key := items[n].obj.data]);
    }
  }

  /** A primary about to be joined by a replica at socket r. */
  ghost predicate Joinable(w: World, r: int, ctx: Context)
    ensures Joinable(w, r, ctx) ==> Ok(w)
  {
    && Ok(w) && w.db.limit == 0 && w.link.primary && r >= 0 && r !in w.link.replicas
    && Unsubscribed(w, r) && InTransaction(w, r) != Some(true)
    && Write(r, ctx.env) == Full && Quiet(w.db, ctx.env.now)
    && forall k :: k in Contents(w.db) ==> Sendable(k, Contents(w.db)[k].data) && NoCrlf(Contents(w.db)[k].data)
  }

  /** REPLCONF listening-port. */
  predicate Joins(input: string) {
    && |Tokens(input)| >= 3
    && Lower(Tokens(input)[0]) == "replconf" && Lower(Tokens(input)[1]) == "listening-port"
  }

  lemma JoinStep(w: World, input: string, ctx: Context, r: int)
    requires Joinable(w, r, ctx) && Joins(input)
    ensures Execute(w, r, input, ctx) ==
      Reply(w.(link := w.link.(replicas := [r] + w.link.replicas),
               sent := w.sent + SyncWrites(Flatten(w.db.rows), r, ctx.env)), r, ReplyString("OK"))
  {
    hide Ok, Tokens, SyncWrites, Flatten, Reply, Quiet, Unsubscribed, Write, Lower, HandlerOf, CommandTable;
    var argv := Tokens(input);
    NameOfTokens(input);
    ReplConfName(argv);
  }

  lemma ReplConfName(argv: seq<string>)
    requires |argv| >= 3 && Lower(argv[0]) == "replconf"
    ensures WellCalled(argv) && HandlerOf(argv) == CmdReplConf
    ensures !IsWriteName(Lower(argv[0])) && !IsTxName(Lower(argv[0]))
  {
    hide Lower;
  }

  /** The other line a replica sends names no command. */
  lemma PsyncUnknown()
    ensures CommandTable("psync").None?
  {}

  /** Joining: the replica is sent lines that rebuild the primary's map from nothing, then
      the OK that means nothing to it. */
  lemma Join(w: World, input: string, ctx: Context, r: int) returns (d: string)
    requires Joinable(w, r, ctx) && Joins(input)
    ensures var w' := Execute(w, r, input, ctx);
      && Serving(w', r) && StreamTo(r, w'.sent) == StreamTo(r, w.sent) + d
      && Carries(d, map[], KV(w'.db))
  {
    hide Tokens, SyncWrites, Flatten, Quiet, Write, Carries, StreamTo, Contents, ToMap, WellCalled, HandlerOf, Wf, ClientsOk,
      HubOk, SubsIn, Portable, Sendable, NoCrlf;
    JoinStep(w, input, ctx, r);
    var items := Flatten(w.db.rows);
    var writes := SyncWrites(items, r, ctx.env);
    FlattenContents(w.db);
    ItemsPortable(w, r, ctx);
    SyncCarries(items, ctx.env, r);
    StreamAppend(r, w.sent, writes);
    var w1 := w.(link := w.link.(replicas := [r] + w.link.replicas), sent := w.sent + writes);
    SideOk(w, w1.link, w1.sent, w1.changes);
    OneMore(w.link.replicas, r);
    PlainTexts();
    CarriesReply("OK", KV(w.db));
    ReplyOk(w1, r, ReplyString("OK"));
    StreamReply(w1, r, ReplyString("OK"));
    CarriesOn(StreamTo(r, writes), ReplyString("OK"), map[], KV(w.db), KV(w.db));
    d := StreamTo(r, writes) + ReplyString("OK");
    assert (StreamTo(r, w.sent) + StreamTo(r, writes)) + ReplyString("OK") == StreamTo(r, w.sent) + d;
  }

  lemma ItemsPortable(w: World, r: int, ctx: Context)
    requires Joinable(w, r, ctx)
    ensures forall i :: 0 <= i < |Flatten(w.db.rows)| ==>
      Portable(Flatten(w.db.rows)[i]) && !Expired(Flatten(w.db.rows)[i].obj, ctx.env.now)
  {
    hide Flatten, ToMap, Contents, Wf, ClientsOk, HubOk, SubsIn, Unsubscribed, Sendable, NoCrlf;
    var items := Flatten(w.db.rows);
    FlattenContents(w.db);
    forall i | 0 <= i < |items| ensures Portable(items[i]) && !Expired(items[i].obj, ctx.env.now) {
      ToMapHas(items, items[i].key);
    }
  }

  lemma OneMore(replicas: seq<int>, r: int)
    requires r !in replicas
    ensures multiset([r] + replicas)[r] == 1
  {
    assert r !in multiset(replicas);
    assert multiset([r] + replicas) == multiset{r} + multiset(replicas);
  }

  lemma StreamReply(w: World, r: int, bytes: string)
    requires r >= 0 && bytes != ""
    ensures StreamTo(r, Reply(w, r, bytes).sent) == StreamTo(r, w.sent) + bytes
  {
    assert (w.sent + [Sent(r, bytes)])[..|w.sent|] == w.sent;
  }

  /** A freshly started server can be joined, by the line every replica sends, if what its
      snapshot loaded can be sent. */
  lemma FreshServerCanBeJoined(size: nat, maxClients: nat, file: File, now: nat, r: int, ctx: Context)
    requires IsPow2(size) && size >= 4 && r >= 0 && Write(r, ctx.env) == Full
    requires var w := Boot(size, maxClients, file, now);
      Wf(w.db) && Quiet(w.db, ctx.env.now) &&
      forall k :: k in Contents(w.db) ==> Sendable(k, Contents(w.db)[k].data) && NoCrlf(Contents(w.db)[k].data)
    ensures Joinable(Boot(size, maxClients, file, now), r, ctx)
    ensures Joins("REPLCONF listening-port 7000\r\n")
  {
    hide Ok, Load, IsPow2, Write, Quiet, Contents, Sendable, NoCrlf, Joins, Unsubscribed, InTransaction, Wf;
    BootOk(size, maxClients, file, now);
    NobodyThere(Boot(size, maxClients, file, now), r);
    ReplicaLineJoins();
  }

  lemma NobodyThere(w: World, r: int)
    requires w.channels == [] && forall i :: 0 <= i < |w.clients| ==> w.clients[i].None?
    ensures Unsubscribed(w, r) && InTransaction(w, r) == None
  {}

  /** Without a snapshot there is nothing to send. */
  lemma EmptyServerCanBeJoined(size: nat, maxClients: nat, now: nat, r: int, ctx: Context)
    requires IsPow2(size) && size >= 4 && r >= 0 && Write(r, ctx.env) == Full
    ensures Joinable(Boot(size, maxClients, Missing, now), r, ctx)
  {
    hide Wf, IsPow2, Write, Contents, Joinable, Empty, Joins;
    EmptyLaw(size, 0);
    FreshServerCanBeJoined(size, maxClients, Missing, now, r, ctx);
  }

  lemma ReplicaLineJoins()
    ensures Joins("REPLCONF listening-port 7000\r\n")
  {
    hide Tokens, PlainWord, Joins;
    var line := "REPLCONF" + (" " + ("listening-port" + (" " + "7000")));
    JoinTexts();
    EolIrrelevant(line);
    WordThen("REPLCONF", "listening-port" + (" " + "7000"));
    WordThen("listening-port", "7000");
    assert "7000" + "" == "7000";
    PlainFirst("7000", "");
    NoTokens();
    JoinWords(line + CRLF);
  }

  lemma JoinTexts()
    ensures PlainWord("REPLCONF") && PlainWord("listening-port") && PlainWord("7000")
    ensures "REPLCONF" + (" " + ("listening-port" + (" " + "7000"))) + CRLF == "REPLCONF listening-port 7000\r\n"
  {
    assert PlainWord("REPLCONF") by { assert "REPLCONF"[0] == 'R'; }
    assert PlainWord("7000") by { assert "7000"[0] == '7'; }
    LongWord();
    hide PlainWord;
    assert "listening-port" + (" " + "7000") == "listening-port 7000";
    assert "REPLCONF" + (" " + "listening-port 7000") == "REPLCONF listening-port 7000";
  }

  lemma LongWord()
    ensures PlainWord("listening-port")
  {}

  lemma JoinWords(line: string)
    requires Tokens(line) == ["REPLCONF", "listening-port", "7000"]
    ensures Joins(line)
  {
    hide Tokens;
    assert Lower("REPLCONF") == "replconf";
    assert Lower("listening-port") == "listening-port";
  }

  // ---------- convergence ----------

  /** The bytes the replica at r was sent between two moments. */
  ghost predicate SentBetween(w0: World, w1: World, r: int, bytes: string) {
    StreamTo(r, w1.sent) == StreamTo(r, w0.sent) + bytes
  }

  /** A replica that starts empty, joins a primary at any moment of its life, and executes
      what it puts together from whatever reads deliver all bytes it was sent up to a later
      moment, then holds exactly the primary's key-to-value map, with no byte left over. */
  lemma Converges(before: World, join: string, ctx: Context, worlds: seq<World>, events: seq<Event>, r: int,
                  chunks: seq<string>, replica: World, ctxs: seq<Context>)
    requires Joinable(before, r, ctx) && Joins(join)
    requires CalmRun(worlds, events, r) && worlds[0] == Execute(before, r, join, ctx)
    requires SentBetween(before, worlds[|events|], r, Concat(chunks))
    requires Ok(replica) && replica.db.limit == 0 && KV(replica.db) == map[]
    requires |ctxs| == |NonEmpty(Session("", chunks).lines)|
    requires QuietReplica(replica, NonEmpty(Session("", chunks).lines), ctxs)
    ensures Ok(worlds[|events|]) && Session("", chunks).tail == ""
    ensures KV(RunLines(replica, NonEmpty(Session("", chunks).lines), ctxs).db) == KV(worlds[|events|].db)
  {
    hide Ok, KV, Joinable, Joins, Serving, StreamTo, Execute, IsRun, Calm, Session, SplitLines, NonEmpty, Replay, RunLines,
      QuietReplica;
    RunLength(worlds, events, r);
    var last := worlds[|events|];
    var d0 := Join(before, join, ctx, r);
    var d1 := ServeRun(worlds, events, r, |events|);
    CarriesOn(d0, d1, map[], KV(worlds[0].db), KV(last.db));
    var s := Concat(chunks);
    assert (StreamTo(r, before.sent) + d0) + d1 == StreamTo(r, before.sent) + (d0 + d1);
    SameSuffix(StreamTo(r, before.sent), s, d0 + d1);
    EmptyTail();
    ChunksIrrelevant("", chunks);
    assert "" + s == s;
    ReplicaReplays(replica, NonEmpty(Session("", chunks).lines), ctxs);
  }

  lemma RunLength(worlds: seq<World>, events: seq<Event>, r: int)
    requires CalmRun(worlds, events, r)
    ensures |worlds| == |events| + 1
  {}

  lemma SameSuffix(a: string, b: string, c: string)
    requires a + b == a + c
    ensures b == c
  {
    assert (a + b)[|a|..] == b && (a + c)[|a|..] == c;
  }

  lemma EmptyTail()
    ensures NoCrlf("")
  {}
}
