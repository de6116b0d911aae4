/** The key commands of src/commands.c: what each does to the table and what it replies,
    given one reading of the clock. */
module Commands {
  import opened Text
  import opened HashTable
  import opened TableLaws
  import opened Eviction

  // ---------- replies ----------

  function ReplyString(s: string): string { "+" + s + CRLF }
  function ReplyError(s: string): string { "-" + s + CRLF }
  function ReplyInteger(n: int): string { ":" + Decimal(n) + CRLF }

  /** An empty bulk string is sent without its closing CRLF. */
  function ReplyBulk(s: string): string {
    "$" + Decimal(|s|) + CRLF + if s == "" then "" else s + CRLF
  }

  const NULL_BULK: string := "$-1\r\n"
  const NOT_A_NUMBER: string := ReplyError("ERR value is not an integer or out of range")

  // ---------- the handlers ----------

  datatype Outcome = Outcome(table: Table, reply: string, ok: bool)

  /** The options EX seconds and PX milliseconds; anything else means no expiry. */
  function SetExpiry(argv: seq<string>, now: nat): nat {
    if |argv| < 5 then 0
    else if Lower(argv[3]) == "ex" then U64(now + Atoll(argv[4]) * 1000)
    else if Lower(argv[3]) == "px" then U64(now + Atoll(argv[4]))
    else 0
  }

  function NewObj(data: string, expire: nat, now: nat): Obj {
    Obj(data, expire, |data| + 1, now)
  }

  function SetCmd(t: Table, argv: seq<string>, now: nat): Outcome
    requires Wf(t) && |argv| >= 3
  {
    Outcome(Add(t, argv[1], NewObj(argv[2], SetExpiry(argv, now), now), now), ReplyString("OK"), true)
  }

  function GetCmd(t: Table, argv: seq<string>, now: nat): Outcome
    requires Wf(t) && |argv| >= 2
  {
    var reply := match Fetched(t, argv[1], now)
      case Some(o) => ReplyBulk(o.data)
      case None => NULL_BULK;
    Outcome(Get(t, argv[1], now), reply, true)
  }

  function DeleteAll(t: Table, keys: seq<string>): (Table, nat)
    requires Wf(t)
    decreases |keys|
  {
    if keys == [] then (t, 0)
    else
      DeleteLaw(t, keys[0]);
      var (t', n) := DeleteAll(Delete(t, keys[0]), keys[1..]);
      (t', n + if Lookup(t, keys[0]).Some? then 1 else 0)
  }

  function DelCmd(t: Table, argv: seq<string>): Outcome
    requires Wf(t) && |argv| >= 1
  {
    var (t', n) := DeleteAll(t, argv[1..]);
    Outcome(t', ReplyInteger(n), true)
  }

  function FetchAll(t: Table, keys: seq<string>, now: nat): (Table, nat)
    requires Wf(t)
    decreases |keys|
  {
    if keys == [] then (t, 0)
    else
      GetLaw(t, keys[0], now);
      var (t', n) := FetchAll(Get(t, keys[0], now), keys[1..], now);
      (t', n + if Fetched(t, keys[0], now).Some? then 1 else 0)
  }

  function ExistsCmd(t: Table, argv: seq<string>, now: nat): Outcome
    requires Wf(t) && |argv| >= 1
  {
    var (t', n) := FetchAll(t, argv[1..], now);
    Outcome(t', ReplyInteger(n), true)
  }

  function ExpireCmd(t: Table, argv: seq<string>, now: nat): Outcome
    requires Wf(t) && |argv| >= 3
  {
    GetLaw(t, argv[1], now);
    var t' := Get(t, argv[1], now);
    match Fetched(t, argv[1], now)
    case None => Outcome(t', ReplyInteger(0), true)
    case Some(o) =>
      LookupContents(t', argv[1]);
      Outcome(Put(t', argv[1], o.(expire := U64(now + Atoll(argv[2]) * 1000))), ReplyInteger(1), true)
  }

  /** The expire-or-now test here is `<=`, one millisecond stricter than the table's. */
  function Ttl(expire: nat, now: nat): int {
    if expire == 0 then -1 else if expire <= now then -2 else (expire - now) / 1000
  }

  function TtlCmd(t: Table, argv: seq<string>, now: nat): Outcome
    requires Wf(t) && |argv| >= 2
  {
    var reply := match Fetched(t, argv[1], now)
      case None => ReplyInteger(-2)
      case Some(o) => ReplyInteger(Ttl(o.expire, now));
    Outcome(Get(t, argv[1], now), reply, true)
  }

  function IncrCmd(t: Table, argv: seq<string>, now: nat): Outcome
    requires Wf(t) && |argv| >= 2
  {
    GetLaw(t, argv[1], now);
    var t' := Get(t, argv[1], now);
    var o := Fetched(t, argv[1], now);
    var parsed := if o.Some? then Strtoll(o.value.data) else Number(0, "");
    if parsed.rest != "" then Outcome(t', NOT_A_NUMBER, false)
    else
      var value := I64(parsed.value + 1);
      var obj := NewObj(Decimal(value), if o.Some? then o.value.expire else 0, now);
      Outcome(Add(t', argv[1], obj, now), ReplyInteger(value), true)
  }

  // ---------- the command table ----------

  /** One constructor per handler. */
  datatype Handler =
    | CmdPing | CmdSet | CmdGet | CmdDel | CmdExists | CmdExpire | CmdTtl | CmdSave | CmdBgSave | CmdReplicaOf
    | CmdRole | CmdIncr | CmdReplConf | CmdMulti | CmdExec | CmdDiscard | CmdSubscribe | CmdUnsubscribe | CmdPublish

  datatype Def = Def(handler: Handler, least: nat, most: int)

  /** The command table; -1 means any number of arguments. */
  function CommandTable(name: string): Option<Def> {
    match name
    case "ping" => Some(Def(CmdPing, 1, 2))
    case "set" => Some(Def(CmdSet, 3, -1))
    case "get" => Some(Def(CmdGet, 2, 2))
    case "del" => Some(Def(CmdDel, 2, -1))
    case "exists" => Some(Def(CmdExists, 2, -1))
    case "expire" => Some(Def(CmdExpire, 3, 3))
    case "ttl" => Some(Def(CmdTtl, 2, 2))
    case "save" => Some(Def(CmdSave, 1, 1))
    case "bgsave" => Some(Def(CmdBgSave, 1, 1))
    case "replicaof" => Some(Def(CmdReplicaOf, 3, 3))
    case "role" => Some(Def(CmdRole, 1, 1))
    case "incr" => Some(Def(CmdIncr, 2, 2))
    case "replconf" => Some(Def(CmdReplConf, 2, -1))
    case "multi" => Some(Def(CmdMulti, 1, 1))
    case "exec" => Some(Def(CmdExec, 1, 1))
    case "discard" => Some(Def(CmdDiscard, 1, 1))
    case "subscribe" => Some(Def(CmdSubscribe, 2, -1))
    case "unsubscribe" => Some(Def(CmdUnsubscribe, 1, -1))
    case "publish" => Some(Def(CmdPublish, 3, 3))
    case _ => None
  }

  predicate Fits(d: Def, argc: nat) {
    argc >= d.least && (d.most == -1 || argc <= d.most)
  }

  /** A command of the table, with the right number of arguments. */
  predicate WellCalled(argv: seq<string>)
    ensures WellCalled(argv) ==> |argv| >= 1
  {
    argv != [] && CommandTable(Lower(argv[0])).Some? && Fits(CommandTable(Lower(argv[0])).value, |argv|)
  }

  function HandlerOf(argv: seq<string>): (h: Handler)
    requires WellCalled(argv)
    ensures h in {CmdSet, CmdExpire, CmdReplicaOf, CmdPublish} ==> |argv| >= 3
    ensures h in {CmdExpire, CmdReplicaOf, CmdPublish} ==> |argv| == 3
    ensures h in {CmdGet, CmdDel, CmdExists, CmdTtl, CmdIncr, CmdReplConf, CmdSubscribe} ==> |argv| >= 2
    ensures h in {CmdMulti, CmdExec, CmdDiscard} <==> IsTxName(Lower(argv[0]))
    ensures h == CmdExec <==> Lower(argv[0]) == "exec"
    ensures h in {CmdSet, CmdDel, CmdExpire, CmdIncr} <==> IsWriteName(Lower(argv[0]))
  {
    CommandTable(Lower(argv[0])).value.handler
  }

  predicate IsTxName(name: string) { name == "multi" || name == "exec" || name == "discard" }

  predicate IsWriteName(name: string) { name == "set" || name == "del" || name == "expire" || name == "incr" }

  predicate IsKeyHandler(h: Handler) {
    h in {CmdSet, CmdGet, CmdDel, CmdExists, CmdExpire, CmdTtl, CmdIncr}
  }

  /** A well-formed call of one of the commands on keys. */
  predicate IsKeyCommand(argv: seq<string>) {
    WellCalled(argv) && IsKeyHandler(HandlerOf(argv))
  }

  /** The commands on keys, by name, with the numbers of words they take. */
  lemma KeyNames(argv: seq<string>)
    ensures IsKeyCommand(argv) <==>
      && argv != []
      && var name := Lower(argv[0]);
         || (name == "set" && |argv| >= 3)
         || (name == "expire" && |argv| == 3)
         || ((name == "get" || name == "ttl" || name == "incr") && |argv| == 2)
         || ((name == "del" || name == "exists") && |argv| >= 2)
    ensures IsKeyCommand(argv) ==> var h := HandlerOf(argv); var name := Lower(argv[0]);
      && (h == CmdSet <==> name == "set") && (h == CmdGet <==> name == "get") && (h == CmdDel <==> name == "del")
      && (h == CmdExists <==> name == "exists") && (h == CmdExpire <==> name == "expire")
      && (h == CmdTtl <==> name == "ttl") && (h == CmdIncr <==> name == "incr")
  {
    hide Lower;
  }

  function Handle(t: Table, argv: seq<string>, now: nat): Outcome
    requires Wf(t) && IsKeyCommand(argv)
  {
    match HandlerOf(argv)
    case CmdSet => SetCmd(t, argv, now)
    case CmdGet => GetCmd(t, argv, now)
    case CmdDel => DelCmd(t, argv)
    case CmdExists => ExistsCmd(t, argv, now)
    case CmdExpire => ExpireCmd(t, argv, now)
    case CmdTtl => TtlCmd(t, argv, now)
    case CmdIncr => IncrCmd(t, argv, now)
  }

  lemma HandleIs(t: Table, argv: seq<string>, now: nat)
    requires Wf(t) && IsKeyCommand(argv)
    ensures HandlerOf(argv) == CmdSet ==> Handle(t, argv, now) == SetCmd(t, argv, now)
    ensures HandlerOf(argv) == CmdGet ==> Handle(t, argv, now) == GetCmd(t, argv, now)
    ensures HandlerOf(argv) == CmdDel ==> Handle(t, argv, now) == DelCmd(t, argv)
    ensures HandlerOf(argv) == CmdExists ==> Handle(t, argv, now) == ExistsCmd(t, argv, now)
    ensures HandlerOf(argv) == CmdExpire ==> Handle(t, argv, now) == ExpireCmd(t, argv, now)
    ensures HandlerOf(argv) == CmdTtl ==> Handle(t, argv, now) == TtlCmd(t, argv, now)
    ensures HandlerOf(argv) == CmdIncr ==> Handle(t, argv, now) == IncrCmd(t, argv, now)
  {
    hide Wf, WellCalled, HandlerOf, SetCmd, GetCmd, DelCmd, ExistsCmd, ExpireCmd, TtlCmd, IncrCmd;
  }

  // ---------- what every command keeps ----------

  lemma {:induction false} DeleteAllKeeps(t: Table, keys: seq<string>)
    requires Wf(t)
    ensures var (t', n) := DeleteAll(t, keys);
      && Wf(t') && t'.limit == t.limit
      && Contents(t') == Contents(t) - (set k | k in keys)
      && n == |set k | k in Contents(t) && k in keys|
    decreases |keys|
  {
    hide Wf, Contents, Delete, Lookup;
    if keys == [] {
      assert (set k | k in Contents(t) && k in keys) == {};
      assert (set k | k in keys) == {};
    } else {
      DeleteLaw(t, keys[0]);
      DeleteKeepsLimit(t, keys[0]);
      LookupContents(t, keys[0]);
      DeleteAllKeeps(Delete(t, keys[0]), keys[1..]);
      FirstHit(Contents(t), keys);
    }
  }

  /** The named keys of a map: the first, if it is there, and those of the rest. */
  lemma FirstHit(m: map<string, Obj>, keys: seq<string>)
    requires keys != []
    ensures m - {keys[0]} - (set k | k in keys[1..]) == m - (set k | k in keys)
    ensures |set k | k in m && k in keys| ==
            |set k | k in m - {keys[0]} && k in keys[1..]| + if keys[0] in m then 1 else 0
  {
    var hit := set k | k in m && k in keys;
    var later := set k | k in m - {keys[0]} && k in keys[1..];
    assert forall k :: k in keys <==> k == keys[0] || k in keys[1..];
    assert hit == later + if keys[0] in m then {keys[0]} else {};
  }

  lemma {:induction false} FetchAllKeeps(t: Table, keys: seq<string>, now: nat)
    requires Wf(t)
    ensures var (t', n) := FetchAll(t, keys, now); Wf(t') && t'.limit == t.limit
    decreases |keys|
  {
    hide Wf, Contents, Get, Fetched;
    if keys != [] {
      GetLaw(t, keys[0], now);
      FetchAllKeeps(Get(t, keys[0], now), keys[1..], now);
    }
  }

  lemma HandleKeeps(t: Table, argv: seq<string>, now: nat)
    requires Wf(t) && IsKeyCommand(argv)
    ensures Wf(Handle(t, argv, now).table) && Handle(t, argv, now).table.limit == t.limit
  {
    hide Wf, Contents, WellCalled, HandlerOf, Add, Get, Put, Fetched, Lookup, Decimal, Strtoll, SetExpiry;
    GetLaw(t, argv[1], now);
    var t' := Get(t, argv[1], now);
    match HandlerOf(argv)
    case CmdSet => AddLaw(t, argv[1], NewObj(argv[2], SetExpiry(argv, now), now), now);
    case CmdGet =>
    case CmdDel => DeleteAllKeeps(t, argv[1..]);
    case CmdExists => FetchAllKeeps(t, argv[1..], now);
    case CmdExpire =>
      LookupContents(t', argv[1]);
      if Fetched(t, argv[1], now).Some? {
        var o := Fetched(t, argv[1], now).value.(expire := U64(now + Atoll(argv[2]) * 1000));
        PutLaw(t', argv[1], o);
        PutKeepsLimit(t', argv[1], o);
      }
    case CmdTtl =>
    case CmdIncr =>
      var o := Fetched(t, argv[1], now);
      var parsed := if o.Some? then Strtoll(o.value.data) else Number(0, "");
      AddLaw(t', argv[1], NewObj(Decimal(I64(parsed.value + 1)), if o.Some? then o.value.expire else 0, now), now);
  }
}
