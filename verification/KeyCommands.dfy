/** What a client of SET, GET, EXPIRE and TTL (src/commands.c) sees, by command name. */
module KeyCommands {
  import opened Text
  import opened HashTable
  import opened TableLaws
  import opened Eviction
  import opened Commands
  import opened Expiry

  /** SET stores the value under the key, with the size of its C string and the time of
      the command, and changes nothing else.  EX counts seconds and PX milliseconds from
      now, in 64 bits; without either the value stays. */
  lemma SetStores(t: Table, argv: seq<string>, now: nat)
    requires Wf(t) && t.limit == 0 && |argv| >= 3 && Lower(argv[0]) == "set"
    ensures IsKeyCommand(argv)
    ensures var out := Handle(t, argv, now);
      && Wf(out.table) && out.table.limit == 0 && out.ok && out.reply == "+OK\r\n"
      && argv[1] in Contents(out.table)
      && var o := Contents(out.table)[argv[1]];
         && Contents(out.table) == Contents(t)[argv[1] := o]
         && o.data == argv[2] && o.size == |argv[2]| + 1 && o.access == now
         && (|argv| >= 5 && Lower(argv[3]) == "ex" ==> o.expire == (now + 1000 * Atoll(argv[4])) % TWO64)
         && (|argv| >= 5 && Lower(argv[3]) == "px" ==> o.expire == (now + Atoll(argv[4])) % TWO64)
         && (|argv| < 5 || (Lower(argv[3]) != "ex" && Lower(argv[3]) != "px") ==> o.expire == 0)
  {
    hide Wf, Contents, WellCalled, HandlerOf, Handle, Add, Lower, Atoll;
    KeyNames(argv);
    HandleIs(t, argv, now);
    AddLaw(t, argv[1], NewObj(argv[2], SetExpiry(argv, now), now), now);
    ReplyTexts();
  }

  /** GET answers the value of a key that is stored and not expired, else a null bulk. */
  lemma GetAnswers(t: Table, argv: seq<string>, now: nat)
    requires Wf(t) && |argv| == 2 && Lower(argv[0]) == "get"
    ensures IsKeyCommand(argv)
    ensures Handle(t, argv, now).reply ==
      if argv[1] in Contents(t) && (Contents(t)[argv[1]].expire == 0 || now <= Contents(t)[argv[1]].expire)
      then BulkText(Contents(t)[argv[1]].data) else "$-1\r\n"
  {
    hide Wf, Contents, WellCalled, HandlerOf, Handle, Lower, Get, Fetched, ReplyBulk, BulkText;
    KeyNames(argv);
    HandleIs(t, argv, now);
    GetLaw(t, argv[1], now);
    ReplyTexts();
    if argv[1] in Contents(t) { BulkIs(Contents(t)[argv[1]].data); }
  }

  /** EXPIRE gives a live key that many seconds from now, and keeps its value. */
  lemma ExpireStores(t: Table, argv: seq<string>, now: nat)
    requires Wf(t) && |argv| == 3 && Lower(argv[0]) == "expire"
    requires argv[1] in Contents(t) && (Contents(t)[argv[1]].expire == 0 || now <= Contents(t)[argv[1]].expire)
    ensures IsKeyCommand(argv)
    ensures var out := Handle(t, argv, now);
      && Wf(out.table) && out.ok && out.reply == ":1\r\n"
      && Contents(out.table) ==
         Contents(t)[argv[1] := Contents(t)[argv[1]].(expire := (now + 1000 * Atoll(argv[2])) % TWO64, access := now)]
  {
    hide Wf, Contents, WellCalled, HandlerOf, Handle, Lower, Get, Fetched, Put, Atoll, Lookup;
    KeyNames(argv);
    HandleIs(t, argv, now);
    GetLaw(t, argv[1], now);
    ReplyTexts();
    var t' := Get(t, argv[1], now);
    LookupContents(t', argv[1]);
    PutLaw(t', argv[1], Fetched(t, argv[1], now).value.(expire := U64(now + Atoll(argv[2]) * 1000)));
  }

  /** The number of milliseconds an option of SET gives a value. */
  function Lifetime(option: string, n: int): int { if Lower(option) == "ex" then 1000 * n else n }

  /** After SET with EX or PX, in any letter case, GET answers the value up to the moment
      the given time is over, and a null bulk ever after.  Only a time that would be over at
      moment 0 makes the value stay. */
  lemma SetThenGet(t: Table, store: seq<string>, n: int, get: seq<string>, now: nat, later: nat)
    requires Wf(t) && t.limit == 0
    requires |store| >= 5 && Lower(store[0]) == "set" && (Lower(store[3]) == "ex" || Lower(store[3]) == "px")
    requires -TWO63 <= n < TWO63 && store[4] == Decimal(n) && 0 <= now + Lifetime(store[3], n) < TWO64
    requires |get| == 2 && Lower(get[0]) == "get" && get[1] == store[1]
    ensures IsKeyCommand(store) && IsKeyCommand(get)
    ensures var out := Handle(t, store, now);
      && Wf(out.table)
      && var end := now + Lifetime(store[3], n);
         Handle(out.table, get, later).reply == if end == 0 || later <= end then BulkText(store[2]) else "$-1\r\n"
  {
    hide Wf, Contents, IsKeyCommand, Handle, Lower, Strtoll, BulkText, Decimal;
    SetStores(t, store, now);
    DecimalRoundTrip(n);
    GetAnswers(Handle(t, store, now).table, get, later);
  }
}
