/** Lazy and swept expiry: the key commands act on the unexpired entries alone, so when
    stale entries are physically removed cannot be told from the replies. */
module Expiry {
  import opened Text
  import opened HashTable
  import opened TableLaws
  import opened Eviction
  import opened Commands

  /** What a client can see of an entry. */
  datatype Val = Val(data: string, expire: nat)

  type Db = map<string, Val>

  predicate Stale(expire: nat, now: nat) { expire != 0 && expire < now }

  /** The unexpired entries, without sizes and access times. */
  ghost function View(m: map<string, Obj>, now: nat): Db {
    map k | k in m && !Expired(m[k], now) :: Val(m[k].data, m[k].expire)
  }

  ghost function Live(t: Table, now: nat): Db
    requires |t.rows| > 0
  {
    View(Contents(t), now)
  }

  ghost function Trim(db: Db, now: nat): Db {
    map k | k in db && !Stale(db[k].expire, now) :: db[k]
  }

  // ---------- the commands on a plain map, which knows nothing of stale entries ----------

  datatype Answer = Answer(db: Db, reply: string)

  /** EX counts in seconds, PX in milliseconds, from now, in 64 bits; otherwise the value
      stays. */
  ghost function PlainSet(db: Db, argv: seq<string>, now: nat): Answer
    requires |argv| >= 3
  {
    var option := if |argv| >= 5 then Lower(argv[3]) else "";
    var expire :=
      if option == "ex" then (now + 1000 * Atoll(argv[4])) % TWO64
      else if option == "px" then (now + Atoll(argv[4])) % TWO64
      else 0;
    Answer(db[argv[1] := Val(argv[2], expire)], "+OK\r\n")
  }

  ghost function PlainGet(db: Db, key: string): Answer {
    Answer(db, if key in db then BulkText(db[key].data) else "$-1\r\n")
  }

  /** A value as GET sends it: an empty one without its closing CRLF. */
  function BulkText(v: string): string {
    if v == "" then "$0\r\n" else "$" + Decimal(|v|) + "\r\n" + v + "\r\n"
  }

  /** How often the listed keys are present, with repetitions. */
  ghost function Present(db: Db, keys: seq<string>): nat {
    if keys == [] then 0 else (if keys[0] in db then 1 else 0) + Present(db, keys[1..])
  }

  ghost function PlainExpire(db: Db, key: string, seconds: int, now: nat): Answer {
    if key in db then Answer(db[key := db[key].(expire := (now + 1000 * seconds) % TWO64)], ":1\r\n")
    else Answer(db, ":0\r\n")
  }

  /** -2 for no such key or one whose time has come, -1 for one that stays, else the whole
      seconds left. */
  ghost function PlainTtl(db: Db, key: string, now: nat): Answer {
    var reply :=
      if key !in db || (db[key].expire != 0 && db[key].expire <= now) then ":-2\r\n"
      else if db[key].expire == 0 then ":-1\r\n"
      else ":" + Decimal((db[key].expire - now) / 1000) + "\r\n";
    Answer(db, reply)
  }

  ghost function PlainIncr(db: Db, key: string): Answer {
    var parsed := if key in db then Strtoll(db[key].data) else Number(0, "");
    if parsed.rest != "" then Answer(db, NOT_A_NUMBER)
    else
      var value := I64(parsed.value + 1);
      Answer(db[key := Val(Decimal(value), if key in db then db[key].expire else 0)], ReplyInteger(value))
  }

  /** The commands by name.  DEL removes; how many it reports is treated apart. */
  ghost function Plain(db: Db, argv: seq<string>, now: nat): Answer
    requires IsKeyCommand(argv)
  {
    KeyNames(argv);
    var name := Lower(argv[0]);
    if name == "set" then PlainSet(db, argv, now)
    else if name == "get" then PlainGet(db, argv[1])
    else if name == "del" then Answer(db - (set k | k in argv[1..]), "")
    else if name == "exists" then Answer(db, ":" + Decimal(Present(db, argv[1..])) + "\r\n")
    else if name == "expire" then PlainExpire(db, argv[1], Atoll(argv[2]), now)
    else if name == "ttl" then PlainTtl(db, argv[1], now)
    else PlainIncr(db, argv[1])
  }

  // ---------- each command acts on the unexpired entries ----------

  lemma FetchedView(t: Table, key: string, now: nat)
    requires Wf(t)
    ensures Wf(Get(t, key, now)) && Get(t, key, now).limit == t.limit
    ensures Live(Get(t, key, now), now) == Live(t, now)
    ensures var o := Fetched(t, key, now);
      if o.Some? then
        key in Live(t, now) && Live(t, now)[key] == Val(o.value.data, o.value.expire)
        && Lookup(Get(t, key, now), key) == o
      else key !in Live(t, now)
  {
    hide Wf, Contents, Lookup, Get, Fetched;
    GetLaw(t, key, now);
    LookupContents(Get(t, key, now), key);
  }

  lemma ViewUpdate(m: map<string, Obj>, key: string, o: Obj, now: nat)
    ensures View(m[key := o], now) == Trim(View(m, now)[key := Val(o.data, o.expire)], now)
  {}

  lemma TrimView(m: map<string, Obj>, now: nat)
    ensures Trim(View(m, now), now) == View(m, now)
  {}

  lemma {:induction false} FetchAllView(t: Table, keys: seq<string>, now: nat)
    requires Wf(t)
    ensures var (t', n) := FetchAll(t, keys, now);
      Wf(t') && Live(t', now) == Live(t, now) && n == Present(Live(t, now), keys)
    decreases |keys|
  {
    hide Wf, Contents, Lookup, Get, Fetched, View;
    if keys != [] {
      FetchedView(t, keys[0], now);
      FetchAllView(Get(t, keys[0], now), keys[1..], now);
    }
  }

  lemma ReplyTexts()
    ensures ReplyString("OK") == "+OK\r\n" && ReplyInteger(1) == ":1\r\n" && ReplyInteger(0) == ":0\r\n"
    ensures ReplyInteger(-1) == ":-1\r\n" && ReplyInteger(-2) == ":-2\r\n"
    ensures NULL_BULK == "$-1\r\n"
  {
    assert Decimal(1) == "1" && Decimal(0) == "0" && Decimal(-1) == "-1" && Decimal(-2) == "-2";
  }

  lemma BulkIs(v: string)
    ensures ReplyBulk(v) == BulkText(v)
  {
    assert Decimal(0) == "0";
    assert "$" + "0" + CRLF == "$0\r\n" && "$0\r\n" + "" == "$0\r\n";
    assert "$" + Decimal(|v|) + CRLF + (v + CRLF) == "$" + Decimal(|v|) + "\r\n" + v + "\r\n";
  }

  lemma PlainSetIs(db: Db, argv: seq<string>, now: nat)
    requires |argv| >= 3
    ensures PlainSet(db, argv, now) == Answer(db[argv[1] := Val(argv[2], SetExpiry(argv, now))], ReplyString("OK"))
  {
    hide Lower, Atoll;
    ReplyTexts();
  }

  lemma PlainExpireIs(db: Db, key: string, seconds: int, now: nat)
    ensures PlainExpire(db, key, seconds, now) ==
      if key in db then Answer(db[key := db[key].(expire := U64(now + seconds * 1000))], ReplyInteger(1))
      else Answer(db, ReplyInteger(0))
  {
    ReplyTexts();
  }

  lemma PlainTtlIs(db: Db, key: string, now: nat)
    ensures PlainTtl(db, key, now) ==
      Answer(db, if key in db then ReplyInteger(Ttl(db[key].expire, now)) else ReplyInteger(-2))
  {
    hide Decimal;
    ReplyTexts();
  }

  lemma SetView(t: Table, argv: seq<string>, now: nat)
    requires Wf(t) && t.limit == 0 && |argv| >= 3
    ensures var out := SetCmd(t, argv, now); var plain := PlainSet(Live(t, now), argv, now);
      Wf(out.table) && Live(out.table, now) == Trim(plain.db, now) && out.reply == plain.reply
  {
    hide Wf, Contents, Add, View, Trim, SetExpiry, PlainSet;
    PlainSetIs(Live(t, now), argv, now);
    var o := NewObj(argv[2], SetExpiry(argv, now), now);
    AddLaw(t, argv[1], o, now);
    ViewUpdate(Contents(t), argv[1], o.(access := now), now);
  }

  lemma ExpireView(t: Table, argv: seq<string>, now: nat)
    requires Wf(t) && |argv| >= 3
    ensures var out := ExpireCmd(t, argv, now); var plain := PlainExpire(Live(t, now), argv[1], Atoll(argv[2]), now);
      Wf(out.table) && Live(out.table, now) == Trim(plain.db, now) && out.reply == plain.reply
  {
    hide Wf, Contents, Lookup, Get, Put, Fetched, View, Trim, Atoll, PlainExpire, ReplyInteger;
    PlainExpireIs(Live(t, now), argv[1], Atoll(argv[2]), now);
    FetchedView(t, argv[1], now);
    var t' := Get(t, argv[1], now);
    TrimView(Contents(t), now);
    var o := Fetched(t, argv[1], now);
    if o.Some? {
      var o' := o.value.(expire := U64(now + Atoll(argv[2]) * 1000));
      PutLaw(t', argv[1], o');
      ViewUpdate(Contents(t'), argv[1], o', now);
    }
  }

  lemma IncrView(t: Table, argv: seq<string>, now: nat)
    requires Wf(t) && t.limit == 0 && |argv| >= 2
    ensures var out := IncrCmd(t, argv, now); var plain := PlainIncr(Live(t, now), argv[1]);
      && Wf(out.table) && Live(out.table, now) == Trim(plain.db, now) && out.reply == plain.reply
      && (out.ok <==> plain.reply != NOT_A_NUMBER)
  {
    hide Wf, Contents, Lookup, Get, Add, Fetched, View, Trim, Strtoll, Decimal;
    FetchedView(t, argv[1], now);
    var t' := Get(t, argv[1], now);
    TrimView(Contents(t), now);
    var o := Fetched(t, argv[1], now);
    var parsed := if o.Some? then Strtoll(o.value.data) else Number(0, "");
    if parsed.rest == "" {
      var obj := NewObj(Decimal(I64(parsed.value + 1)), if o.Some? then o.value.expire else 0, now);
      AddLaw(t', argv[1], obj, now);
      ViewUpdate(Contents(t'), argv[1], obj.(access := now), now);
      assert ReplyInteger(I64(parsed.value + 1))[0] == ':' && NOT_A_NUMBER[0] == '-';
    }
  }

  lemma DelView(t: Table, argv: seq<string>, now: nat)
    requires Wf(t) && |argv| >= 1
    ensures var out := DelCmd(t, argv);
      Wf(out.table) && Live(out.table, now) == Trim(Live(t, now) - (set k | k in argv[1..]), now)
  {
    hide Wf, Contents, DeleteAll, Decimal;
    DeleteAllKeeps(t, argv[1..]);
  }

  lemma ExistsView(t: Table, argv: seq<string>, now: nat)
    requires Wf(t) && |argv| >= 1
    ensures var out := ExistsCmd(t, argv, now);
      && Wf(out.table) && Live(out.table, now) == Trim(Live(t, now), now)
      && out.reply == ReplyInteger(Present(Live(t, now), argv[1..]))
  {
    hide Wf, Contents, View, Trim, FetchAll, Present, ReplyInteger;
    FetchAllView(t, argv[1..], now);
    TrimView(Contents(t), now);
  }

  predicate IsDel(argv: seq<string>) { argv != [] && Lower(argv[0]) == "del" }

  /** The commands that only look. */
  lemma LookView(t: Table, argv: seq<string>, now: nat)
    requires Wf(t) && |argv| >= 2
    ensures var out := GetCmd(t, argv, now);
      && Wf(out.table) && PlainGet(Live(t, now), argv[1]) == Answer(Live(out.table, now), out.reply)
      && Trim(Live(out.table, now), now) == Live(out.table, now)
    ensures var out := TtlCmd(t, argv, now);
      && Wf(out.table) && PlainTtl(Live(t, now), argv[1], now) == Answer(Live(out.table, now), out.reply)
      && Trim(Live(out.table, now), now) == Live(out.table, now)
  {
    hide Wf, Contents, View, Trim, Get, Fetched, Decimal, Ttl, PlainTtl, ReplyBulk, BulkText, ReplyInteger;
    FetchedView(t, argv[1], now);
    TrimView(Contents(t), now);
    PlainTtlIs(Live(t, now), argv[1], now);
    ReplyTexts();
    if Fetched(t, argv[1], now).Some? { BulkIs(Fetched(t, argv[1], now).value.data); }
  }

  /** Every key command changes the unexpired entries, and replies, as the plain map does. */
  lemma HandleView(t: Table, argv: seq<string>, now: nat)
    requires Wf(t) && t.limit == 0 && IsKeyCommand(argv)
    ensures var out := Handle(t, argv, now); var plain := Plain(Live(t, now), argv, now);
      && Wf(out.table) && out.table.limit == 0
      && Live(out.table, now) == Trim(plain.db, now)
      && (!IsDel(argv) ==> out.reply == plain.reply)
  {
    hide Wf, Contents, WellCalled, HandlerOf, View, Trim, SetCmd, GetCmd, DelCmd, ExistsCmd, TtlCmd, ExpireCmd, IncrCmd,
      PlainSet, PlainGet, PlainTtl, PlainExpire, PlainIncr, Plain, Lower, Handle, Live, ReplyInteger, Atoll, Present, IsDel;
    PlainIs(Live(t, now), argv, now);
    HandleIs(t, argv, now);
    HandleKeeps(t, argv, now);
    var h := HandlerOf(argv);
    if h == CmdSet {
      SetView(t, argv, now);
    } else if h == CmdGet || h == CmdTtl {
      LookView(t, argv, now);
    } else if h == CmdDel {
      DelView(t, argv, now);
    } else if h == CmdExists {
      ExistsView(t, argv, now);
    } else if h == CmdExpire {
      ExpireView(t, argv, now);
    } else {
      IncrView(t, argv, now);
    }
  }

  lemma PlainIs(db: Db, argv: seq<string>, now: nat)
    requires IsKeyCommand(argv)
    ensures IsKeyHandler(HandlerOf(argv)) && (IsDel(argv) <==> HandlerOf(argv) == CmdDel)
    ensures HandlerOf(argv) == CmdSet ==> Plain(db, argv, now) == PlainSet(db, argv, now)
    ensures HandlerOf(argv) == CmdGet ==> Plain(db, argv, now) == PlainGet(db, argv[1])
    ensures HandlerOf(argv) == CmdDel ==> Plain(db, argv, now) == Answer(db - (set k | k in argv[1..]), "")
    ensures HandlerOf(argv) == CmdExists ==> Plain(db, argv, now) == Answer(db, ReplyInteger(Present(db, argv[1..])))
    ensures HandlerOf(argv) == CmdExpire ==> Plain(db, argv, now) == PlainExpire(db, argv[1], Atoll(argv[2]), now)
    ensures HandlerOf(argv) == CmdTtl ==> Plain(db, argv, now) == PlainTtl(db, argv[1], now)
    ensures HandlerOf(argv) == CmdIncr ==> Plain(db, argv, now) == PlainIncr(db, argv[1])
  {
    hide IsKeyCommand, HandlerOf, PlainSet, PlainGet, PlainTtl, PlainExpire, PlainIncr, Present, Atoll, Decimal, Lower;
    KeyNames(argv);
  }

  // ---------- DEL counts what is stored, stale or not ----------

  /** DEL replies how many of the keys it names are stored, each counted once, and removes
      exactly those. */
  lemma DelReply(t: Table, argv: seq<string>, now: nat)
    requires Wf(t) && |argv| >= 2 && Lower(argv[0]) == "del"
    ensures IsKeyCommand(argv)
    ensures var out := Handle(t, argv, now);
      && Wf(out.table) && out.ok
      && out.reply == ReplyInteger(|set k | k in Contents(t) && k in argv[1..]|)
      && Contents(out.table) == Contents(t) - (set k | k in argv[1..])
  {
    hide Wf, Contents, IsKeyCommand, HandlerOf, DeleteAll, Decimal, Lower;
    KeyNames(argv);
    DeleteAllKeeps(t, argv[1..]);
  }

  /** DEL replies the number of unexpired keys named if and only if no key named is stored
      but expired. */
  lemma DelCount(t: Table, argv: seq<string>, now: nat)
    requires Wf(t) && |argv| >= 2 && Lower(argv[0]) == "del"
    ensures IsKeyCommand(argv)
    ensures Handle(t, argv, now).reply == ReplyInteger(|set k | k in Live(t, now) && k in argv[1..]|) <==>
      forall k :: k in argv[1..] && k in Contents(t) ==> !Expired(Contents(t)[k], now)
  {
    hide Wf, Contents, IsKeyCommand, Handle, ReplyInteger, Lower;
    DelReply(t, argv, now);
    var stored := set k | k in Contents(t) && k in argv[1..];
    var live := set k | k in Live(t, now) && k in argv[1..];
    assert live <= stored;
    if live == stored {
      forall k | k in argv[1..] && k in Contents(t) ensures !Expired(Contents(t)[k], now) {
        assert k in live;
      }
    } else {
      var k :| k in stored && k !in live;
      assert live < stored;
      ProperSubset(live, stored);
      if ReplyInteger(|live|) == ReplyInteger(|stored|) { SameNumber(|live|, |stored|); }
    }
  }

  lemma SameNumber(a: nat, b: nat)
    requires ReplyInteger(a) == ReplyInteger(b)
    ensures a == b
  {
    hide Digits;
    var x, y := ReplyInteger(a), ReplyInteger(b);
    assert x[1..|x| - 2] == Digits(a) && y[1..|y| - 2] == Digits(b);
    DigitsValueOfDigits(a);
    DigitsValueOfDigits(b);
  }

  lemma ProperSubset(a: set<string>, b: set<string>)
    requires a < b
    ensures |a| < |b|
  {
    var x :| x in b && x !in a;
    assert b == (b - a) + a && x in b - a;
  }

  // ---------- whole runs ----------

  datatype Event = Command(argv: seq<string>, at: nat) | SweepAt(at: nat)

  ghost predicate Timely(run: seq<Event>, from: nat)
    decreases |run|
  {
    run != [] ==>
      && from <= run[0].at && (run[0].Command? ==> IsKeyCommand(run[0].argv))
      && Timely(run[1..], run[0].at)
  }

  /** The replies of a run, in order, except the numbers DEL reports. */
  function Replies(t: Table, run: seq<Event>, from: nat): seq<string>
    requires Wf(t) && Timely(run, from)
    decreases |run|
  {
    if run == [] then []
    else match run[0]
      case SweepAt(now) =>
        SweepLaw(t, now);
        Replies(Sweep(t, now), run[1..], now)
      case Command(argv, now) =>
        HandleKeeps(t, argv, now);
        var out := Handle(t, argv, now);
        [if IsDel(argv) then "" else out.reply] + Replies(out.table, run[1..], now)
  }

  function WithoutSweeps(run: seq<Event>): seq<Event>
    decreases |run|
  {
    if run == [] then []
    else (if run[0].SweepAt? then [] else [run[0]]) + WithoutSweeps(run[1..])
  }

  /** The same run on the plain map, to which a sweep means nothing. */
  ghost function PlainReplies(db: Db, run: seq<Event>, from: nat): seq<string>
    requires Timely(run, from)
    decreases |run|
  {
    if run == [] then []
    else match run[0]
      case SweepAt(now) => PlainReplies(db, run[1..], now)
      case Command(argv, now) =>
        var plain := Plain(Trim(db, now), argv, now);
        [plain.reply] + PlainReplies(Trim(plain.db, now), run[1..], now)
  }

  lemma TrimLater(m: map<string, Obj>, from: nat, now: nat)
    requires from <= now
    ensures Trim(View(m, from), now) == View(m, now)
  {}

  lemma SweepView(t: Table, now: nat)
    requires Wf(t)
    ensures Live(Sweep(t, now), now) == Live(t, now)
  {
    hide Wf, Contents;
    SweepLaw(t, now);
  }

  /** A run of the table replies as the plain map does, sweeps or no sweeps. */
  lemma {:induction false} RepliesPlain(t: Table, run: seq<Event>, from: nat, db: Db)
    requires Wf(t) && t.limit == 0 && Timely(run, from)
    requires forall now :: now >= from ==> Trim(db, now) == Live(t, now)
    ensures Replies(t, run, from) == PlainReplies(db, run, from)
    decreases |run|
  {
    hide Wf, Contents, View, Trim, Handle, Plain, Sweep, IsKeyCommand;
    if run != [] {
      var now := run[0].at;
      if run[0].SweepAt? {
        SweepLaw(t, now);
        SweepKeepsLimit(t, now);
        SweepView(t, now);
        forall later | later >= now ensures Trim(db, later) == Live(Sweep(t, now), later) {
          TrimLater(Contents(Sweep(t, now)), now, later);
          TrimLater(Contents(t), now, later);
        }
        RepliesPlain(Sweep(t, now), run[1..], now, db);
      } else {
        var argv := run[0].argv;
        HandleView(t, argv, now);
        var out, plain := Handle(t, argv, now), Plain(Live(t, now), argv, now);
        forall later | later >= now ensures Trim(Trim(plain.db, now), later) == Live(out.table, later) {
          TrimLater(Contents(out.table), now, later);
        }
        if IsDel(argv) { DelSilent(Live(t, now), argv, now); }
        RepliesPlain(out.table, run[1..], now, Trim(plain.db, now));
      }
    }
  }

  lemma DelSilent(db: Db, argv: seq<string>, now: nat)
    requires IsKeyCommand(argv) && IsDel(argv)
    ensures Plain(db, argv, now).reply == ""
  {}

  lemma {:induction false} WithoutSweepsTimely(run: seq<Event>, from: nat, earlier: nat)
    requires Timely(run, from) && earlier <= from
    ensures Timely(WithoutSweeps(run), earlier)
    decreases |run|
  {
    hide IsKeyCommand;
    if run != [] {
      var now := run[0].at;
      if run[0].SweepAt? {
        WithoutSweepsTimely(run[1..], now, earlier);
        assert WithoutSweeps(run) == WithoutSweeps(run[1..]);
      } else {
        WithoutSweepsTimely(run[1..], now, now);
        assert WithoutSweeps(run)[0] == run[0] && WithoutSweeps(run)[1..] == WithoutSweeps(run[1..]);
      }
    }
  }

  lemma {:induction false} PlainIgnoresSweeps(db: Db, run: seq<Event>, from: nat, earlier: nat)
    requires Timely(run, from) && Timely(WithoutSweeps(run), earlier)
    ensures PlainReplies(db, run, from) == PlainReplies(db, WithoutSweeps(run), earlier)
    decreases |run|
  {
    hide Plain, Trim, IsKeyCommand;
    if run != [] {
      var now := run[0].at;
      var rest := WithoutSweeps(run[1..]);
      if run[0].SweepAt? {
        assert WithoutSweeps(run) == rest;
        PlainIgnoresSweeps(db, run[1..], now, earlier);
      } else {
        assert WithoutSweeps(run)[0] == run[0] && WithoutSweeps(run)[1..] == rest;
        PlainIgnoresSweeps(Trim(Plain(Trim(db, now), run[0].argv, now).db, now), run[1..], now, now);
      }
    }
  }

  /** Sweeps anywhere in a run of commands change no reply but the numbers of DEL. */
  lemma SweepsInvisible(t: Table, run: seq<Event>, from: nat)
    requires Wf(t) && t.limit == 0 && Timely(run, from)
    ensures Timely(WithoutSweeps(run), from)
    ensures Replies(t, run, from) == Replies(t, WithoutSweeps(run), from)
  {
    hide Wf, Contents, View, Trim, Replies, PlainReplies, WithoutSweeps, IsKeyCommand;
    var db := Live(t, from);
    forall now | now >= from ensures Trim(db, now) == Live(t, now) { TrimLater(Contents(t), from, now); }
    WithoutSweepsTimely(run, from, from);
    RepliesPlain(t, run, from, db);
    RepliesPlain(t, WithoutSweeps(run), from, db);
    PlainIgnoresSweeps(db, run, from, from);
  }
}
