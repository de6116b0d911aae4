/** INCR as a counter over whole runs. */
module Counter {
  import opened Text
  import opened HashTable
  import opened TableLaws
  import opened Eviction
  import opened Commands

  /** One INCR after another, at the given times: the table at the end and the replies. */
  function IncrRun(t: Table, key: string, times: seq<nat>): (Table, seq<string>)
    requires Wf(t)
    decreases |times|
  {
    if times == [] then (t, [])
    else
      IncrIs(t, key, times[0]);
      var out := Handle(t, ["INCR", key], times[0]);
      var (t', rs) := IncrRun(out.table, key, times[1..]);
      (t', [out.reply] + rs)
  }

  lemma IncrIs(t: Table, key: string, now: nat)
    requires Wf(t)
    ensures IsKeyCommand(["INCR", key]) && Handle(t, ["INCR", key], now) == IncrCmd(t, ["INCR", key], now)
    ensures Wf(Handle(t, ["INCR", key], now).table)
  {
    hide Wf, IncrCmd, WellCalled, HandlerOf, Handle;
    var argv := ["INCR", key];
    assert Lower("INCR") == "incr";
    KeyNames(argv);
    HandleIs(t, argv, now);
    HandleKeeps(t, argv, now);
  }

  /** The text `strtoll` would read as n, to its end, under a key that is not stale. */
  ghost predicate Counts(t: Table, key: string, n: int, expire: nat, times: seq<nat>)
    requires |t.rows| > 0
  {
    if key in Contents(t) then
      && Strtoll(Contents(t)[key].data) == Number(n, "") && Contents(t)[key].expire == expire
      && forall i :: 0 <= i < |times| ==> !Expired(Contents(t)[key], times[i])
    else n == 0 && expire == 0
  }

  lemma OneIncr(t: Table, key: string, n: int, expire: nat, now: nat)
    requires Wf(t) && t.limit == 0 && -TWO63 <= n < TWO63 - 1
    requires Counts(t, key, n, expire, [now])
    ensures IsKeyCommand(["INCR", key])
    ensures var out := Handle(t, ["INCR", key], now);
      && Wf(out.table) && out.table.limit == 0
      && out.ok && out.reply == ReplyInteger(n + 1)
      && key in Contents(out.table)
      && Contents(out.table)[key] == Obj(Decimal(n + 1), expire, |Decimal(n + 1)| + 1, now)
      && Contents(out.table) - {key} == Contents(t) - {key}
  {
    hide Wf, Contents, Lookup, Get, Fetched, Add, Strtoll, Decimal, IsKeyCommand, Handle;
    IncrIs(t, key, now);
    GetLaw(t, key, now);
    assert [now][0] == now;
    var o := Fetched(t, key, now);
    AddLaw(Get(t, key, now), key, NewObj(Decimal(n + 1), expire, now), now);
  }

  /** k successful INCRs of a key that is absent, or holds a number n, leave the text of
      n + k, keep the expiry and every other entry, and reply n + 1, n + 2, and so on. */
  lemma {:induction false} IncrCounts(t: Table, key: string, n: int, expire: nat, times: seq<nat>)
    requires Wf(t) && t.limit == 0 && -TWO63 <= n && n + |times| < TWO63
    requires Counts(t, key, n, expire, times)
    ensures var (t', rs) := IncrRun(t, key, times);
      && Wf(t') && |rs| == |times|
      && (forall i :: 0 <= i < |rs| ==> rs[i] == ReplyInteger(n + 1 + i))
      && (times != [] ==>
            && key in Contents(t')
            && Contents(t')[key].data == Decimal(n + |times|) && Contents(t')[key].expire == expire
            && Strtoll(Contents(t')[key].data) == Number(n + |times|, ""))
      && Contents(t') - {key} == Contents(t) - {key}
    decreases |times|
  {
    hide Wf, Contents, IsKeyCommand, Handle, Strtoll, Decimal, ReplyInteger;
    if times != [] {
      assert Counts(t, key, n, expire, [times[0]]);
      OneIncr(t, key, n, expire, times[0]);
      DecimalRoundTrip(n + 1);
      DecimalRoundTrip(n + |times|);
      var t1 := Handle(t, ["INCR", key], times[0]).table;
      if key in Contents(t) { assert expire == Contents(t)[key].expire; }
      forall i | 0 <= i < |times[1..]| ensures !Expired(Contents(t1)[key], times[1..][i]) {
        if key in Contents(t) { assert !Expired(Contents(t)[key], times[i + 1]); }
      }
      IncrCounts(t1, key, n + 1, expire, times[1..]);
      var (t', rs) := IncrRun(t1, key, times[1..]);
      var all := IncrRun(t, key, times).1;
      assert all == [ReplyInteger(n + 1)] + rs;
      forall i | 0 <= i < |all| ensures all[i] == ReplyInteger(n + 1 + i) {
        if i > 0 { assert all[i] == rs[i - 1]; }
      }
    }
  }
}
