/** The key-to-value map of a table and what command lines do to it while nothing expires. */
module KeyValues {
  import opened Text
  import opened Tokenizer
  import opened HashTable
  import opened TableLaws
  import opened Eviction
  import opened Commands
  import opened PubSub
  import opened Replication
  import opened Executor

  type Kv = map<string, string>

  ghost function Values(m: map<string, Obj>): Kv {
    map k | k in m :: m[k].data
  }

  ghost function KV(t: Table): Kv
    requires |t.rows| > 0
  {
    Values(Contents(t))
  }

  /** Nothing stored has expired. */
  ghost predicate Quiet(t: Table, now: nat)
    requires |t.rows| > 0
  {
    forall k :: k in Contents(t) ==> !Expired(Contents(t)[k], now)
  }

  ghost function KvIncr(m: Kv, key: string): Kv {
    var parsed := if key in m then Strtoll(m[key]) else Number(0, "");
    if parsed.rest != "" then m else m[key := Decimal(I64(parsed.value + 1))]
  }

  ghost function KvApply(m: Kv, argv: seq<string>): Kv
    requires IsKeyCommand(argv)
  {
    KeyNames(argv);
    var name := Lower(argv[0]);
    if name == "set" then m[argv[1] := argv[2]]
    else if name == "del" then m - (set k | k in argv[1..])
    else if name == "incr" then KvIncr(m, argv[1])
    else m
  }

  lemma KvApplyIs(m: Kv, argv: seq<string>)
    requires IsKeyCommand(argv)
    ensures IsKeyHandler(HandlerOf(argv))
    ensures HandlerOf(argv) == CmdSet ==> |argv| >= 3 && KvApply(m, argv) == m[argv[1] := argv[2]]
    ensures HandlerOf(argv) == CmdDel ==> KvApply(m, argv) == m - (set k | k in argv[1..])
    ensures HandlerOf(argv) == CmdIncr ==> |argv| >= 2 && KvApply(m, argv) == KvIncr(m, argv[1])
    ensures HandlerOf(argv) !in {CmdSet, CmdDel, CmdIncr} ==> KvApply(m, argv) == m
  {
    hide WellCalled, HandlerOf, Lower, KvIncr;
    KeyNames(argv);
  }

  /** What a line does to a map, whoever executes it. */
  ghost function KvLine(m: Kv, line: string): Kv {
    if IsKeyCommand(Tokens(line)) then KvApply(m, Tokens(line)) else m
  }

  ghost function Replay(m: Kv, lines: seq<string>): Kv
    decreases |lines|
  {
    if lines == [] then m else Replay(KvLine(m, lines[0]), lines[1..])
  }

  lemma {:induction false} ReplayAppend(m: Kv, a: seq<string>, b: seq<string>)
    ensures Replay(m, a + b) == Replay(Replay(m, a), b)
    decreases |a|
  {
    hide KvLine;
    if a == [] {
      assert a + b == b;
    } else {
      assert (a + b)[1..] == a[1..] + b;
      ReplayAppend(KvLine(m, a[0]), a[1..], b);
    }
  }

  // ---------- the handlers on key-to-value maps ----------

  lemma GetKv(t: Table, key: string, now: nat)
    requires Wf(t) && Quiet(t, now)
    ensures Wf(Get(t, key, now)) && Quiet(Get(t, key, now), now) && Get(t, key, now).limit == t.limit
    ensures KV(Get(t, key, now)) == KV(t)
    ensures var o := Fetched(t, key, now);
      if key in KV(t) then o.Some? && o.value.data == KV(t)[key] && Lookup(Get(t, key, now), key) == o else o.None?
  {
    hide Wf, Contents, Get, Fetched, Lookup;
    GetLaw(t, key, now);
    LookupContents(Get(t, key, now), key);
  }

  lemma {:induction false} FetchAllKv(t: Table, keys: seq<string>, now: nat)
    requires Wf(t) && Quiet(t, now)
    ensures var (t', n) := FetchAll(t, keys, now); Wf(t') && KV(t') == KV(t)
    decreases |keys|
  {
    hide Wf, Contents, Get, Fetched, Quiet, KV;
    if keys != [] {
      GetKv(t, keys[0], now);
      FetchAllKv(Get(t, keys[0], now), keys[1..], now);
    }
  }

  lemma AddKv(t: Table, key: string, o: Obj, now: nat)
    requires Wf(t) && t.limit == 0
    ensures Wf(Add(t, key, o, now)) && KV(Add(t, key, o, now)) == KV(t)[key := o.data]
  {
    hide Wf, Contents, Add;
    AddLaw(t, key, o, now);
  }

  lemma ExpireKv(t: Table, argv: seq<string>, now: nat)
    requires Wf(t) && Quiet(t, now) && |argv| >= 3
    ensures Wf(ExpireCmd(t, argv, now).table) && KV(ExpireCmd(t, argv, now).table) == KV(t)
  {
    hide Wf, Contents, Get, Put, Fetched, Lookup, Atoll;
    GetKv(t, argv[1], now);
    var t' := Get(t, argv[1], now);
    if Fetched(t, argv[1], now).Some? {
      LookupContents(t', argv[1]);
      PutLaw(t', argv[1], Fetched(t, argv[1], now).value.(expire := U64(now + Atoll(argv[2]) * 1000)));
    }
  }

  lemma IncrKv(t: Table, argv: seq<string>, now: nat)
    requires Wf(t) && Quiet(t, now) && t.limit == 0 && |argv| >= 2
    ensures var out := IncrCmd(t, argv, now);
      && Wf(out.table) && KV(out.table) == KvIncr(KV(t), argv[1])
      && (!out.ok ==> KvIncr(KV(t), argv[1]) == KV(t))
  {
    hide Wf, Quiet, KV, Get, Add, Fetched, Lookup, Strtoll, Decimal;
    GetKv(t, argv[1], now);
    var o := Fetched(t, argv[1], now);
    var parsed := if o.Some? then Strtoll(o.value.data) else Number(0, "");
    if parsed.rest == "" {
      var expire := if o.Some? then o.value.expire else 0;
      AddKv(Get(t, argv[1], now), argv[1], NewObj(Decimal(I64(parsed.value + 1)), expire, now), now);
    }
  }

  lemma DelKv(t: Table, keys: seq<string>)
    requires Wf(t)
    ensures var (t', n) := DeleteAll(t, keys); Wf(t') && KV(t') == KV(t) - (set k | k in keys)
  {
    hide Wf, Contents, DeleteAll;
    DeleteAllKeeps(t, keys);
  }

  /** While nothing has expired and nothing is evicted, a key command changes the
      key-to-value map as its words say; a failed one changes nothing. */
  lemma HandleKv(t: Table, argv: seq<string>, now: nat)
    requires Wf(t) && t.limit == 0 && Quiet(t, now) && IsKeyCommand(argv)
    ensures var out := Handle(t, argv, now);
      && Wf(out.table) && out.table.limit == 0 && KV(out.table) == KvApply(KV(t), argv)
      && (!out.ok ==> KvApply(KV(t), argv) == KV(t))
  {
    hide Wf, KV, Quiet, WellCalled, HandlerOf, Get, Fetched, ExpireCmd, IncrCmd, DeleteAll, FetchAll, KvIncr, Add, SetExpiry,
      Decimal, Ttl, KvApply, Lower;
    KvApplyIs(KV(t), argv);
    HandleKeeps(t, argv, now);
    match HandlerOf(argv)
    case CmdSet => AddKv(t, argv[1], NewObj(argv[2], SetExpiry(argv, now), now), now);
    case CmdGet => GetKv(t, argv[1], now);
    case CmdDel => DelKv(t, argv[1..]);
    case CmdExists => FetchAllKv(t, argv[1..], now);
    case CmdExpire => ExpireKv(t, argv, now);
    case CmdTtl => GetKv(t, argv[1], now);
    case CmdIncr => IncrKv(t, argv, now);
  }

  /** A line that does not run a queue: its effect on the map. */
  lemma LineKv(w: World, sock: int, input: string, ctx: Context)
    requires Ok(w) && w.db.limit == 0 && Quiet(w.db, ctx.env.now) && WellCalled(Tokens(input)) && Name(input) != "exec"
    ensures var d := RunCommand(w, sock, Tokens(input), ctx);
      && Wf(d.world.db) && d.world.db.limit == 0
      && KV(d.world.db) == KvLine(KV(w.db), input)
      && (!d.ok || !IsWriteName(Name(input)) ==> KvLine(KV(w.db), input) == KV(w.db))
  {
    hide Ok, Wf, KV, Quiet, Tokens, Handle, OtherCommand, WellCalled, Lower, Reply;
    var argv := Tokens(input);
    assert Name(input) == Lower(argv[0]);
    RunCommandOk(w, sock, argv, ctx);
    if IsKeyHandler(HandlerOf(argv)) {
      HandleKv(w.db, argv, ctx.env.now);
      ReplyDb(w.(db := Handle(w.db, argv, ctx.env.now).table), sock, Handle(w.db, argv, ctx.env.now).reply);
    }
  }

  lemma ReplyDb(w: World, sock: int, bytes: string)
    ensures Reply(w, sock, bytes).db == w.db && Reply(w, sock, bytes).clients == w.clients
    ensures Reply(w, sock, bytes).channels == w.channels && Reply(w, sock, bytes).link == w.link
  {}

  // ---------- a line on a replica ----------

  /** Without a client behind it, a line does to a replica's map what it says, and no more. */
  lemma ReplicaLine(w: World, line: string, ctx: Context)
    requires Ok(w) && w.db.limit == 0 && Quiet(w.db, ctx.env.now)
    ensures Execute(w, -1, line, ctx).db.limit == 0
    ensures KV(Execute(w, -1, line, ctx).db) == KvLine(KV(w.db), line)
  {
    hide Ok, Wf, KV, Quiet, Tokens, RunCommand, HandlerOf;
    var argv := Tokens(line);
    if WellCalled(argv) && Name(line) != "exec" {
      LineKv(w, -1, line, ctx);
    } else if WellCalled(argv) {
      assert HandlerOf(argv) == CmdExec;
    }
  }

  /** The replica's loop over the lines it has put together. */
  function RunLines(w: World, lines: seq<string>, ctxs: seq<Context>): (w': World)
    requires Ok(w) && |ctxs| == |lines|
    ensures Ok(w')
    decreases |lines|
  {
    if lines == [] then w else RunLines(Execute(w, -1, lines[0], ctxs[0]), lines[1..], ctxs[1..])
  }

  /** Nothing on the replica has expired when a line runs. */
  ghost predicate QuietReplica(w: World, lines: seq<string>, ctxs: seq<Context>)
    requires Ok(w) && |ctxs| == |lines|
    decreases |lines|
  {
    lines != [] ==>
      Quiet(w.db, ctxs[0].env.now) && QuietReplica(Execute(w, -1, lines[0], ctxs[0]), lines[1..], ctxs[1..])
  }

  lemma {:induction false} ReplicaReplays(w: World, lines: seq<string>, ctxs: seq<Context>)
    requires Ok(w) && w.db.limit == 0 && |ctxs| == |lines| && QuietReplica(w, lines, ctxs)
    ensures KV(RunLines(w, lines, ctxs).db) == Replay(KV(w.db), lines)
    decreases |lines|
  {
    hide Ok, KV, Execute, KvLine, Quiet;
    if lines != [] {
      ReplicaLine(w, lines[0], ctxs[0]);
      ReplicaReplays(Execute(w, -1, lines[0], ctxs[0]), lines[1..], ctxs[1..]);
    }
  }
}
