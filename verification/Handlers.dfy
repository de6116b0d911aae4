/** The command handlers of src/commands.c, acting on the linked table. */
module Handlers {
  import opened Text
  import opened HashTable
  import opened TableLaws
  import opened Eviction
  import opened Commands
  import opened DictHeap

  method SetCommand(d: Dict, argv: seq<string>, now: nat) returns (reply: string, ok: bool)
    requires d.Valid() && |argv| >= 3
    modifies d, d.table, d.repr
    ensures d.Valid() && (d.table == old(d.table) || fresh(d.table)) && fresh(d.repr - old(d.repr))
    ensures Outcome(d.Model(), reply, ok) == SetCmd(old(d.Model()), argv, now)
  {
    hide Wf, Entries, Dict.Shape, Add;
    var expireMs := 0;
    if |argv| >= 5 {
      if Lower(argv[3]) == "ex" {
        expireMs := U64(now + Atoll(argv[4]) * 1000);
      } else if Lower(argv[3]) == "px" {
        expireMs := U64(now + Atoll(argv[4]));
      }
    }
    d.DictAdd(argv[1], NewObj(argv[2], expireMs, now), now);
    reply, ok := ReplyString("OK"), true;
  }

  method GetCommand(d: Dict, argv: seq<string>, now: nat) returns (reply: string, ok: bool)
    requires d.Valid() && |argv| >= 2
    modifies d, d.table, d.repr
    ensures d.Valid() && d.table == old(d.table) && d.repr <= old(d.repr)
    ensures Outcome(d.Model(), reply, ok) == GetCmd(old(d.Model()), argv, now)
  {
    hide Wf, Entries, Dict.Shape, Get, Fetched, Decimal;
    var entry := d.DictGet(argv[1], now);
    if entry != null {
      reply := ReplyBulk(entry.val.data);
    } else {
      reply := NULL_BULK;
    }
    ok := true;
  }

  method DelCommand(d: Dict, argv: seq<string>) returns (reply: string, ok: bool)
    requires d.Valid() && |argv| >= 1
    modifies d, d.table, d.repr
    ensures d.Valid() && d.table == old(d.table) && d.repr <= old(d.repr)
    ensures Outcome(d.Model(), reply, ok) == DelCmd(old(d.Model()), argv)
  {
    hide Wf, Entries, Dict.Shape, Delete, Lookup, DeleteAll, Decimal;
    ghost var was := d.Model();
    var deleted := 0;
    for i := 1 to |argv|
      invariant d.Valid() && d.table == old(d.table) && d.repr <= old(d.repr)
      invariant var (t', n) := DeleteAll(d.Model(), argv[i..]);
        DeleteAll(was, argv[1..]) == (t', deleted + n)
    {
      DeleteAllStep(d.Model(), argv[i..]);
      assert argv[i..][1..] == argv[i + 1..];
      var found := d.DictDelete(argv[i]);
      if found { deleted := deleted + 1; }
    }
    DeleteAllStep(d.Model(), argv[|argv|..]);
    reply, ok := ReplyInteger(deleted), true;
  }

  lemma DeleteAllStep(t: Table, keys: seq<string>)
    requires Wf(t)
    ensures keys == [] ==> DeleteAll(t, keys) == (t, 0)
    ensures keys != [] ==> Wf(Delete(t, keys[0]))
    ensures keys != [] ==>
      var (t', n) := DeleteAll(Delete(t, keys[0]), keys[1..]);
      DeleteAll(t, keys) == (t', n + if Lookup(t, keys[0]).Some? then 1 else 0)
  {
    if keys != [] { DeleteLaw(t, keys[0]); }
  }

  method ExistsCommand(d: Dict, argv: seq<string>, now: nat) returns (reply: string, ok: bool)
    requires d.Valid() && |argv| >= 1
    modifies d, d.table, d.repr
    ensures d.Valid() && d.table == old(d.table) && d.repr <= old(d.repr)
    ensures Outcome(d.Model(), reply, ok) == ExistsCmd(old(d.Model()), argv, now)
  {
    hide Wf, Entries, Dict.Shape, Get, Fetched, FetchAll, Decimal;
    ghost var was := d.Model();
    var count := 0;
    for i := 1 to |argv|
      invariant d.Valid() && d.table == old(d.table) && d.repr <= old(d.repr)
      invariant var (t', n) := FetchAll(d.Model(), argv[i..], now);
        FetchAll(was, argv[1..], now) == (t', count + n)
    {
      FetchAllStep(d.Model(), argv[i..], now);
      assert argv[i..][1..] == argv[i + 1..];
      var entry := d.DictGet(argv[i], now);
      if entry != null { count := count + 1; }
    }
    FetchAllStep(d.Model(), argv[|argv|..], now);
    reply, ok := ReplyInteger(count), true;
  }

  lemma FetchAllStep(t: Table, keys: seq<string>, now: nat)
    requires Wf(t)
    ensures keys == [] ==> FetchAll(t, keys, now) == (t, 0)
    ensures keys != [] ==> Wf(Get(t, keys[0], now))
    ensures keys != [] ==>
      var (t', n) := FetchAll(Get(t, keys[0], now), keys[1..], now);
      FetchAll(t, keys, now) == (t', n + if Fetched(t, keys[0], now).Some? then 1 else 0)
  {
    if keys != [] { GetLaw(t, keys[0], now); }
  }

  method ExpireCommand(d: Dict, argv: seq<string>, now: nat) returns (reply: string, ok: bool)
    requires d.Valid() && |argv| >= 3
    modifies d, d.table, d.repr
    ensures d.Valid() && d.table == old(d.table) && d.repr <= old(d.repr)
    ensures Outcome(d.Model(), reply, ok) == ExpireCmd(old(d.Model()), argv, now)
  {
    hide Wf, Entries, Dict.Shape, Get, Fetched, Lookup, Put, Atoll, U64, Decimal, Dict.Holds;
    ok := true;
    var entry := d.DictGet(argv[1], now);
    if entry == null {
      reply := ReplyInteger(0);
      return;
    }
    var seconds := Atoll(argv[2]);
    d.SetVal(argv[1], entry, entry.val.(expire := U64(now + seconds * 1000)));
    reply := ReplyInteger(1);
  }

  method TtlCommand(d: Dict, argv: seq<string>, now: nat) returns (reply: string, ok: bool)
    requires d.Valid() && |argv| >= 2
    modifies d, d.table, d.repr
    ensures d.Valid() && d.table == old(d.table) && d.repr <= old(d.repr)
    ensures Outcome(d.Model(), reply, ok) == TtlCmd(old(d.Model()), argv, now)
  {
    hide Wf, Entries, Dict.Shape, Get, Fetched, ReplyInteger;
    ok := true;
    var entry := d.DictGet(argv[1], now);
    var ttl := -2;
    if entry != null {
      if entry.val.expire == 0 {
        ttl := -1;
      } else if entry.val.expire > now {
        ttl := (entry.val.expire - now) / 1000;
      }
      assert ttl == Ttl(entry.val.expire, now);
    }
    reply := ReplyInteger(ttl);
  }

  method IncrCommand(d: Dict, argv: seq<string>, now: nat) returns (reply: string, ok: bool)
    requires d.Valid() && |argv| >= 2
    modifies d, d.table, d.repr
    ensures d.Valid() && (d.table == old(d.table) || fresh(d.table)) && fresh(d.repr - old(d.repr))
    ensures Outcome(d.Model(), reply, ok) == IncrCmd(old(d.Model()), argv, now)
  {
    hide Wf, Entries, Dict.Shape, Get, Fetched, Add, Strtoll, Decimal;
    var entry := d.DictGet(argv[1], now);
    var value, expire := 0, 0;
    if entry != null {
      var parsed := Strtoll(entry.val.data);
      if parsed.rest != "" {
        return NOT_A_NUMBER, false;
      }
      value, expire := parsed.value, entry.val.expire;
    }
    value := I64(value + 1);
    d.DictAdd(argv[1], NewObj(Decimal(value), expire, now), now);
    reply, ok := ReplyInteger(value), true;
  }

  /** The dispatch to the key commands. */
  method HandleCommand(d: Dict, argv: seq<string>, now: nat) returns (reply: string, ok: bool)
    requires d.Valid() && IsKeyCommand(argv)
    modifies d, d.table, d.repr
    ensures d.Valid() && (d.table == old(d.table) || fresh(d.table)) && fresh(d.repr - old(d.repr))
    ensures Outcome(d.Model(), reply, ok) == Handle(old(d.Model()), argv, now)
  {
    hide Wf, WellCalled, HandlerOf, SetCmd, GetCmd, DelCmd, ExistsCmd, ExpireCmd, TtlCmd, IncrCmd;
    match HandlerOf(argv)
    case CmdSet => reply, ok := SetCommand(d, argv, now);
    case CmdGet => reply, ok := GetCommand(d, argv, now);
    case CmdDel => reply, ok := DelCommand(d, argv);
    case CmdExists => reply, ok := ExistsCommand(d, argv, now);
    case CmdExpire => reply, ok := ExpireCommand(d, argv, now);
    case CmdTtl => reply, ok := TtlCommand(d, argv, now);
    case CmdIncr => reply, ok := IncrCommand(d, argv, now);
  }
}
