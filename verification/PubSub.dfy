/** Channels and subscribers (src/pubsub.c).  A client is known by an identity that no two
    connections share, standing for the address of its `client_t`. */
module PubSub {
  import opened Text
  import opened Seqs

  datatype Channel = Channel(name: string, subs: seq<nat>)

  // ---------- the lists ----------

  function FindChannel(channels: seq<Channel>, name: string): (c: nat)
    ensures c <= |channels|
    ensures c < |channels| ==> channels[c].name == name
    ensures forall i :: 0 <= i < c ==> channels[i].name != name
  {
    if channels == [] || channels[0].name == name then 0 else 1 + FindChannel(channels[1..], name)
  }

  /** `find_or_create_channel`: new channels go to the front. */
  function WithChannel(channels: seq<Channel>, name: string): seq<Channel> {
    if FindChannel(channels, name) < |channels| then channels else [Channel(name, [])] + channels
  }

  /** `subscribe_to_channel`. */
  function Subscribe(channels: seq<Channel>, id: nat, name: string): seq<Channel> {
    var all := WithChannel(channels, name);
    var c := FindChannel(all, name);
    if c == |all| || id in all[c].subs then all
    else all[c := Channel(name, [id] + all[c].subs)]
  }

  function SubscribeAll(channels: seq<Channel>, id: nat, names: seq<string>): seq<Channel>
    decreases |names|
  {
    if names == [] then channels else SubscribeAll(Subscribe(channels, id, names[0]), id, names[1..])
  }

  function Subscribed(channels: seq<Channel>, id: nat, name: string): bool {
    var c := FindChannel(channels, name);
    c < |channels| && id in channels[c].subs
  }

  /** `unsubscribe_from_channel`. */
  function Unsubscribe(channels: seq<Channel>, id: nat, name: string): seq<Channel> {
    var c := FindChannel(channels, name);
    if c < |channels| then channels[c := Channel(name, RemoveFirst(channels[c].subs, id))] else channels
  }

  /** `pubsub_remove_client`: in every channel the first node of the client goes. */
  function RemoveClient(channels: seq<Channel>, id: nat): (r: seq<Channel>)
    ensures |r| == |channels|
    ensures forall c :: 0 <= c < |channels| ==> r[c] == Channel(channels[c].name, RemoveFirst(channels[c].subs, id))
  {
    if channels == [] then []
    else [Channel(channels[0].name, RemoveFirst(channels[0].subs, id))] + RemoveClient(channels[1..], id)
  }

  /** Whom `pubsub_publish_message` writes to, in order. */
  function Receivers(channels: seq<Channel>, name: string): seq<nat> {
    var c := FindChannel(channels, name);
    if c < |channels| then channels[c].subs else []
  }

  // ---------- the messages ----------

  function Bulk(s: string): string { "$" + Decimal(|s|) + CRLF + s + CRLF }

  function SubscribeReply(name: string, count: nat): string {
    "*3\r\n$9\r\nsubscribe\r\n" + Bulk(name) + (":" + Decimal(count) + CRLF)
  }

  /** The number of remaining subscriptions is always reported as 0. */
  function UnsubscribeReply(name: string): string {
    "*3\r\n$11\r\nunsubscribe\r\n" + Bulk(name) + ":0" + CRLF
  }

  const NOT_SUBSCRIBED: string := "*3\r\n$11\r\nunsubscribe\r\n$-1\r\n:0\r\n"

  function Message(name: string, message: string): string {
    "*3\r\n$7\r\nmessage\r\n" + Bulk(name) + Bulk(message)
  }

  /** Confirmations number the channels of this one command. */
  function SubscribeReplies(names: seq<string>, done: nat): string
    decreases |names|
  {
    if names == [] then "" else SubscribeReply(names[0], done + 1) + SubscribeReplies(names[1..], done + 1)
  }

  function UnsubscribeNames(channels: seq<Channel>, id: nat, names: seq<string>): (seq<Channel>, string)
    decreases |names|
  {
    if names == [] then (channels, "")
    else
      var (rest, replies) := UnsubscribeNames(Unsubscribe(channels, id, names[0]), id, names[1..]);
      (rest, (if Subscribed(channels, id, names[0]) then UnsubscribeReply(names[0]) else "") + replies)
  }

  function AllReplies(channels: seq<Channel>, id: nat): string {
    if channels == [] then ""
    else (if id in channels[0].subs then UnsubscribeReply(channels[0].name) else "") + AllReplies(channels[1..], id)
  }

  /** `pubsub_unsubscribe_client`: without names, from every channel. */
  function UnsubscribeClient(channels: seq<Channel>, id: nat, names: seq<string>): (seq<Channel>, string) {
    if names != [] then UnsubscribeNames(channels, id, names)
    else
      var replies := AllReplies(channels, id);
      (RemoveClient(channels, id), if replies == "" then NOT_SUBSCRIBED else replies)
  }

  // ---------- the invariant ----------

  ghost predicate NoRepeats(subs: seq<nat>) {
    forall i, j :: 0 <= i < j < |subs| ==> subs[i] != subs[j]
  }

  /** Channel names are unique and no client stands twice in a channel. */
  ghost predicate HubOk(channels: seq<Channel>) {
    && (forall i, j :: 0 <= i < j < |channels| ==> channels[i].name != channels[j].name)
    && (forall c :: 0 <= c < |channels| ==> NoRepeats(channels[c].subs))
  }

  /** Every subscriber is one of these clients. */
  ghost predicate SubsIn(channels: seq<Channel>, ids: set<nat>) {
    forall c, s :: 0 <= c < |channels| && s in channels[c].subs ==> s in ids
  }

  lemma RemoveFirstGone(subs: seq<nat>, id: nat)
    requires NoRepeats(subs)
    ensures NoRepeats(RemoveFirst(subs, id))
    ensures forall s :: s in RemoveFirst(subs, id) <==> s in subs && s != id
  {
    var k := FirstIndex(subs, id);
    var r := RemoveFirst(subs, id);
    if k < |subs| {
      forall s | s in subs && s != id ensures s in r {
        var m :| 0 <= m < |subs| && subs[m] == s;
        assert r[if m < k then m else m - 1] == s;
      }
    }
  }

  lemma SubscribeOk(channels: seq<Channel>, id: nat, name: string, ids: set<nat>)
    requires HubOk(channels) && SubsIn(channels, ids) && id in ids
    ensures HubOk(Subscribe(channels, id, name)) && SubsIn(Subscribe(channels, id, name), ids)
    ensures Subscribed(Subscribe(channels, id, name), id, name)
  {
    hide HubOk, Subscribed;
    SubscribeExact(channels, id, name, id, name);
  }

  lemma {:induction false} SubscribeAllOk(channels: seq<Channel>, id: nat, names: seq<string>, ids: set<nat>)
    requires HubOk(channels) && SubsIn(channels, ids) && id in ids
    ensures HubOk(SubscribeAll(channels, id, names)) && SubsIn(SubscribeAll(channels, id, names), ids)
    decreases |names|
  {
    hide HubOk, SubsIn, Subscribe;
    if names != [] {
      SubscribeOk(channels, id, names[0], ids);
      SubscribeAllOk(Subscribe(channels, id, names[0]), id, names[1..], ids);
    }
  }

  lemma UnsubscribeOk(channels: seq<Channel>, id: nat, name: string, ids: set<nat>)
    requires HubOk(channels) && SubsIn(channels, ids)
    ensures HubOk(Unsubscribe(channels, id, name)) && SubsIn(Unsubscribe(channels, id, name), ids)
    ensures !Subscribed(Unsubscribe(channels, id, name), id, name)
  {
    hide RemoveFirst;
    var c := FindChannel(channels, name);
    if c < |channels| {
      RemoveFirstGone(channels[c].subs, id);
      FindChannelIs(Unsubscribe(channels, id, name), name, c);
    }
  }

  lemma {:induction false} UnsubscribeNamesOk(channels: seq<Channel>, id: nat, names: seq<string>, ids: set<nat>)
    requires HubOk(channels) && SubsIn(channels, ids)
    ensures var (r, _) := UnsubscribeNames(channels, id, names); HubOk(r) && SubsIn(r, ids)
    decreases |names|
  {
    hide HubOk, SubsIn, Unsubscribe, Subscribed;
    if names != [] {
      UnsubscribeOk(channels, id, names[0], ids);
      UnsubscribeNamesOk(Unsubscribe(channels, id, names[0]), id, names[1..], ids);
    }
  }

  /** Since no client stands twice in a channel, unlinking one node per channel removes the
      client entirely, and nobody else. */
  lemma RemoveClientOk(channels: seq<Channel>, id: nat, ids: set<nat>)
    requires HubOk(channels) && SubsIn(channels, ids)
    ensures HubOk(RemoveClient(channels, id)) && SubsIn(RemoveClient(channels, id), ids - {id})
    ensures forall c, s :: 0 <= c < |channels| ==>
      (s in RemoveClient(channels, id)[c].subs <==> s in channels[c].subs && s != id)
  {
    hide RemoveFirst;
    forall c | 0 <= c < |channels|
      ensures NoRepeats(RemoveFirst(channels[c].subs, id))
      ensures forall s :: s in RemoveFirst(channels[c].subs, id) <==> s in channels[c].subs && s != id
    {
      RemoveFirstGone(channels[c].subs, id);
    }
  }

  lemma UnsubscribeClientOk(channels: seq<Channel>, id: nat, names: seq<string>, ids: set<nat>)
    requires HubOk(channels) && SubsIn(channels, ids)
    ensures var (r, _) := UnsubscribeClient(channels, id, names); HubOk(r) && SubsIn(r, ids)
  {
    hide HubOk, UnsubscribeNames, AllReplies;
    if names != [] { UnsubscribeNamesOk(channels, id, names, ids); } else { RemoveClientOk(channels, id, ids); }
  }

  // ---------- exactly who is where afterwards ----------

  lemma SubscribedIs(channels: seq<Channel>, c: nat)
    requires HubOk(channels) && c < |channels|
    ensures forall s :: Subscribed(channels, s, channels[c].name) <==> s in channels[c].subs
  {
    assert FindChannel(channels, channels[c].name) == c;
  }

  /** Subscribing adds that client to that channel, and nothing else. */
  lemma SubscribeExact(channels: seq<Channel>, id: nat, name: string, s: nat, n: string)
    requires HubOk(channels)
    ensures HubOk(Subscribe(channels, id, name))
    ensures Subscribed(Subscribe(channels, id, name), s, n) <==> Subscribed(channels, s, n) || (s == id && n == name)
  {
    hide WithChannel, HubOk, FindChannel, Subscribed;
    var all := WithChannel(channels, name);
    ChannelAdded(channels, name, s, n);
    if id !in all[FindChannel(all, name)].subs { SubscriberAdded(all, id, name, s, n); } else { SubscribedIn(all, id, name); }
  }

  lemma SubscribedIn(all: seq<Channel>, id: nat, name: string)
    requires FindChannel(all, name) < |all| && id in all[FindChannel(all, name)].subs
    ensures Subscribed(all, id, name)
  {}

  lemma SubscriberAdded(all: seq<Channel>, id: nat, name: string, s: nat, n: string)
    requires HubOk(all) && FindChannel(all, name) < |all| && id !in all[FindChannel(all, name)].subs
    ensures var c := FindChannel(all, name); var r := all[c := Channel(name, [id] + all[c].subs)];
      HubOk(r) && (Subscribed(r, s, n) <==> Subscribed(all, s, n) || (s == id && n == name))
  {
    hide FindChannel;
    var c := FindChannel(all, name);
    FindChannelIs(all[c := Channel(name, [id] + all[c].subs)], n, FindChannel(all, n));
  }

  /** A new channel without subscribers changes no subscription. */
  lemma ChannelAdded(channels: seq<Channel>, name: string, s: nat, n: string)
    requires HubOk(channels)
    ensures var all := WithChannel(channels, name);
      && HubOk(all) && FindChannel(all, name) < |all|
      && (Subscribed(all, s, n) <==> Subscribed(channels, s, n))
  {
    hide FindChannel;
    if FindChannel(channels, name) == |channels| {
      var all := [Channel(name, [])] + channels;
      FindChannelIs(all, name, 0);
      FindChannelIs(all, n, if n == name then 0 else 1 + FindChannel(channels, n));
    }
  }

  /** SUBSCRIBE subscribes the client to every channel it names, and nobody to anything else. */
  lemma {:induction false} SubscribeAllExact(channels: seq<Channel>, id: nat, names: seq<string>, s: nat, n: string)
    requires HubOk(channels)
    ensures Subscribed(SubscribeAll(channels, id, names), s, n) <==> Subscribed(channels, s, n) || (s == id && n in names)
    decreases |names|
  {
    hide HubOk, Subscribe, Subscribed;
    if names != [] {
      SubscribeExact(channels, id, names[0], s, n);
      SubscribeAllExact(Subscribe(channels, id, names[0]), id, names[1..], s, n);
      assert n in names <==> n == names[0] || n in names[1..];
    }
  }

  /** Leaving one channel takes that client out of it, and nothing else. */
  lemma UnsubscribeExact(channels: seq<Channel>, id: nat, name: string)
    requires HubOk(channels)
    ensures var r := Unsubscribe(channels, id, name);
      && HubOk(r) && |r| == |channels|
      && forall c :: 0 <= c < |channels| ==>
           && r[c].name == channels[c].name
           && forall s :: s in r[c].subs <==> s in channels[c].subs && !(s == id && channels[c].name == name)
  {
    hide RemoveFirst;
    var c := FindChannel(channels, name);
    if c < |channels| { RemoveFirstGone(channels[c].subs, id); }
  }

  /** UNSUBSCRIBE takes the client out of the channels it names, or out of all when it
      names none, and nothing else. */
  lemma {:induction false} UnsubscribeClientExact(channels: seq<Channel>, id: nat, names: seq<string>)
    requires HubOk(channels)
    ensures var r := UnsubscribeClient(channels, id, names).0;
      && |r| == |channels|
      && forall c :: 0 <= c < |channels| ==>
           && r[c].name == channels[c].name
           && forall s :: s in r[c].subs <==>
                s in channels[c].subs && !(s == id && (names == [] || channels[c].name in names))
    decreases |names|
  {
    hide HubOk, Unsubscribe, Subscribed, RemoveFirst, UnsubscribeReply, AllReplies;
    if names == [] {
      forall c | 0 <= c < |channels|
        ensures forall s :: s in RemoveFirst(channels[c].subs, id) <==> s in channels[c].subs && s != id
      {
        RemovedFrom(channels, c, id);
      }
    } else {
      UnsubscribeExact(channels, id, names[0]);
      var rest := Unsubscribe(channels, id, names[0]);
      if names[1..] == [] {
        assert UnsubscribeNames(rest, id, []).0 == rest;
        assert names == [names[0]];
      } else {
        UnsubscribeClientExact(rest, id, names[1..]);
        assert forall n :: n in names <==> n == names[0] || n in names[1..];
      }
    }
  }

  lemma RemovedFrom(channels: seq<Channel>, c: nat, id: nat)
    requires HubOk(channels) && c < |channels|
    ensures forall s :: s in RemoveFirst(channels[c].subs, id) <==> s in channels[c].subs && s != id
  {
    RemoveFirstGone(channels[c].subs, id);
  }

  /** One confirmation for each of these channels. */
  function Confirmed(names: seq<string>): string {
    if names == [] then ""
    else "*3\r\n$11\r\nunsubscribe\r\n$" + Decimal(|names[0]|) + "\r\n" + names[0] + "\r\n:0\r\n" + Confirmed(names[1..])
  }

  lemma ConfirmedOne(name: string, more: seq<string>)
    ensures Confirmed([name] + more) == UnsubscribeReply(name) + Confirmed(more)
  {
    hide Decimal;
    var d := Decimal(|name|);
    assert ([name] + more)[1..] == more;
    assert "*3\r\n$11\r\nunsubscribe\r\n" + ("$" + d + CRLF + name + CRLF) + ":0" + CRLF ==
           "*3\r\n$11\r\nunsubscribe\r\n$" + d + "\r\n" + name + "\r\n:0\r\n";
  }

  /** The channels named, in the order in which they were first named, that the client was
      in: each is confirmed once. */
  lemma {:induction false} NamesConfirmed(channels: seq<Channel>, id: nat, names: seq<string>) returns (left: seq<string>)
    requires HubOk(channels)
    ensures UnsubscribeNames(channels, id, names).1 == Confirmed(left)
    ensures forall n :: n in left <==> n in names && Subscribed(channels, id, n)
    ensures forall i, j :: 0 <= i < j < |left| ==> FirstIndex(names, left[i]) < FirstIndex(names, left[j])
    decreases |names|
  {
    hide HubOk, Unsubscribe, Subscribed, UnsubscribeReply, Confirmed;
    assert names != [] ==> FirstIndex(names, names[0]) == 0;
    if names == [] {
      left := [];
      ConfirmedNone();
    } else {
      UnsubscribeExact(channels, id, names[0]);
      var rest := Unsubscribe(channels, id, names[0]);
      var later := NamesConfirmed(rest, id, names[1..]);
      forall n ensures Subscribed(rest, id, n) <==> Subscribed(channels, id, n) && n != names[0] {
        LeftOne(channels, id, names[0], n);
      }
      assert forall n :: n in names <==> n == names[0] || n in names[1..];
      assert forall n :: n in later ==> n != names[0];
      forall i | 0 <= i < |later| ensures FirstIndex(names, later[i]) == 1 + FirstIndex(names[1..], later[i]) {
        assert later[i] in later;
      }
      if Subscribed(channels, id, names[0]) {
        left := [names[0]] + later;
        ConfirmedOne(names[0], later);
      } else {
        left := later;
        assert "" + Confirmed(later) == Confirmed(later);
      }
    }
  }

  lemma ConfirmedNone()
    ensures Confirmed([]) == ""
  {}

  lemma LeftOne(channels: seq<Channel>, id: nat, name: string, n: string)
    requires HubOk(channels)
    ensures Subscribed(Unsubscribe(channels, id, name), id, n) <==> Subscribed(channels, id, n) && n != name
  {
    hide RemoveFirst;
    UnsubscribeExact(channels, id, name);
    FindChannelIs(Unsubscribe(channels, id, name), n, FindChannel(channels, n));
  }

  /** Without names: the channels the client was in, in the order of the list. */
  lemma {:induction false} AllConfirmed(channels: seq<Channel>, id: nat) returns (left: seq<string>)
    requires HubOk(channels)
    ensures AllReplies(channels, id) == Confirmed(left)
    ensures forall n :: n in left <==> Subscribed(channels, id, n)
    ensures forall i, j :: 0 <= i < j < |left| ==> FindChannel(channels, left[i]) < FindChannel(channels, left[j])
  {
    hide HubOk, Subscribed, FindChannel, UnsubscribeReply, Confirmed, AllReplies;
    if channels == [] {
      left := [];
      ConfirmedNone();
      NotSubscribed(id);
    } else {
      FirstChannel(channels, id);
      FirstReply(channels, id);
      var later := AllConfirmed(channels[1..], id);
      var name := channels[0].name;
      forall i | 0 <= i < |later| ensures FindChannel(channels, later[i]) == 1 + FindChannel(channels[1..], later[i]) {
        assert later[i] in later && later[i] != name;
      }
      if id in channels[0].subs {
        left := [name] + later;
        ConfirmedOne(name, later);
      } else {
        left := later;
      }
    }
  }

  lemma FirstReply(channels: seq<Channel>, id: nat)
    requires channels != []
    ensures AllReplies(channels, id) ==
      if id in channels[0].subs then UnsubscribeReply(channels[0].name) + AllReplies(channels[1..], id)
      else AllReplies(channels[1..], id)
  {
    hide UnsubscribeReply;
    assert "" + AllReplies(channels[1..], id) == AllReplies(channels[1..], id);
  }

  lemma NotSubscribed(id: nat)
    ensures AllReplies([], id) == "" && forall n :: !Subscribed([], id, n)
  {}

  lemma FirstChannel(channels: seq<Channel>, id: nat)
    requires HubOk(channels) && channels != []
    ensures HubOk(channels[1..]) && !Subscribed(channels[1..], id, channels[0].name)
    ensures Subscribed(channels, id, channels[0].name) <==> id in channels[0].subs
    ensures forall n :: n != channels[0].name ==> (Subscribed(channels, id, n) <==> Subscribed(channels[1..], id, n))
    ensures forall n ::
      FindChannel(channels, n) == if n == channels[0].name then 0 else 1 + FindChannel(channels[1..], n)
  {
    FindChannelIs(channels[1..], channels[0].name, |channels[1..]|);
  }

  /** What UNSUBSCRIBE replies: a confirmation for exactly the channels left, or, when no
      name was given and there were none, one that names no channel. */
  lemma UnsubscribeConfirms(channels: seq<Channel>, id: nat, names: seq<string>) returns (left: seq<string>)
    requires HubOk(channels)
    ensures forall n :: n in left <==> Subscribed(channels, id, n) && (names == [] || n in names)
    ensures forall i, j :: 0 <= i < j < |left| ==> left[i] != left[j]
    ensures UnsubscribeClient(channels, id, names).1 ==
      if names == [] && left == [] then "*3\r\n$11\r\nunsubscribe\r\n$-1\r\n:0\r\n" else Confirmed(left)
  {
    hide HubOk, Subscribed, UnsubscribeNames, AllReplies, Confirmed, FindChannel, FirstIndex;
    ConfirmedNone();
    if names == [] {
      left := AllConfirmed(channels, id);
      if left != [] { ConfirmedSome(left); }
    } else {
      left := NamesConfirmed(channels, id, names);
    }
  }

  lemma ConfirmedSome(names: seq<string>)
    requires names != []
    ensures Confirmed(names) != ""
  {}

  // ---------- the messages read back ----------

  datatype Part = Part(text: string, rest: string)

  /** A bulk string off the front: its length in decimal, that many bytes, CRLF after each. */
  function ReadBulk(s: string): Option<Part> {
    if s == "" || s[0] != '$' then None
    else
      var n := DigitRun(s[1..]);
      var len := DigitsValue(s[1..][..n]);
      var body := s[1..][n..];
      if |body| < len + 4 || body[..2] != "\r\n" || body[2 + len..4 + len] != "\r\n" then None
      else Some(Part(body[2..2 + len], body[4 + len..]))
  }

  lemma BulkReadBack(v: string, rest: string)
    ensures ReadBulk(Bulk(v) + rest) == Some(Part(v, rest))
  {
    hide Digits, DigitsValue, DigitRun;
    var d := Digits(|v|);
    var tail := "\r\n" + v + "\r\n" + rest;
    assert Bulk(v) + rest == "$" + (d + tail);
    DigitsThen(d, tail);
    DigitsValueOfDigits(|v|);
    assert (d + tail)[..|d|] == d && (d + tail)[|d|..] == tail;
    assert tail[..2] == "\r\n" && tail[2..2 + |v|] == v && tail[2 + |v|..4 + |v|] == "\r\n" && tail[4 + |v|..] == rest;
  }

  lemma {:induction false} DigitsThen(d: string, tail: string)
    requires (forall i :: 0 <= i < |d| ==> IsDigit(d[i])) && tail != "" && !IsDigit(tail[0])
    ensures DigitRun(d + tail) == |d|
  {
    if d == "" {
      assert d + tail == tail;
    } else {
      assert (d + tail)[1..] == d[1..] + tail;
      DigitsThen(d[1..], tail);
    }
  }

  /** A published message is the three bulk strings "message", channel, text. */
  lemma MessageReadBack(name: string, text: string)
    ensures var m := Message(name, text);
      && |m| >= 4 && m[..4] == "*3\r\n"
      && var first := ReadBulk(m[4..]);
      && first.Some? && first.value.text == "message"
      && var second := ReadBulk(first.value.rest);
      && second.Some? && second.value.text == name
      && ReadBulk(second.value.rest) == Some(Part(text, ""))
  {
    hide ReadBulk, Bulk;
    var m := Message(name, text);
    SevenBytes();
    assert "*3\r\n$7\r\nmessage\r\n" == "*3\r\n" + "$7\r\nmessage\r\n";
    Front("*3\r\n", Bulk("message"), Bulk(name), Bulk(text));
    assert Bulk(text) + "" == Bulk(text);
    BulkReadBack("message", Bulk(name) + (Bulk(text) + ""));
    BulkReadBack(name, Bulk(text) + "");
    BulkReadBack(text, "");
  }

  lemma Front(a: string, b: string, c: string, d: string)
    ensures (a + b) + c + d == a + (b + (c + d)) && ((a + b) + c + d)[|a|..] == b + (c + d)
    ensures ((a + b) + c + d)[..|a|] == a
  {}

  lemma SevenBytes()
    ensures Bulk("message") == "$7\r\nmessage\r\n" && Bulk("subscribe") == "$9\r\nsubscribe\r\n"
  {
    assert Decimal(7) == "7" && Decimal(9) == "9";
  }

  /** A confirmation of a subscription: "subscribe", the channel, its number. */
  lemma SubscribeReadBack(name: string, count: nat)
    ensures var m := SubscribeReply(name, count);
      && |m| >= 4 && m[..4] == "*3\r\n"
      && var first := ReadBulk(m[4..]);
      && first.Some? && first.value.text == "subscribe"
      && ReadBulk(first.value.rest) == Some(Part(name, ":" + Decimal(count) + "\r\n"))
  {
    hide ReadBulk, Bulk, Decimal;
    var m := SubscribeReply(name, count);
    var number := ":" + Decimal(count) + CRLF;
    assert CRLF == "\r\n";
    SevenBytes();
    assert "*3\r\n$9\r\nsubscribe\r\n" == "*3\r\n" + "$9\r\nsubscribe\r\n";
    Front("*3\r\n", Bulk("subscribe"), Bulk(name), ":" + Decimal(count) + CRLF);
    BulkReadBack("subscribe", Bulk(name) + number);
    BulkReadBack(name, number);
  }

  /** SUBSCRIBE confirms its channels one by one, numbered from 1. */
  lemma {:induction false} RepliesNumbered(names: seq<string>, done: nat, more: seq<string>)
    ensures SubscribeReplies(names + more, done) == SubscribeReplies(names, done) + SubscribeReplies(more, done + |names|)
    ensures forall n :: SubscribeReplies([n], done) == SubscribeReply(n, done + 1)
    decreases |names|
  {
    hide SubscribeReply;
    forall n ensures SubscribeReplies([n], done) == SubscribeReply(n, done + 1) {
      assert SubscribeReplies([], done + 1) == "" && SubscribeReply(n, done + 1) + "" == SubscribeReply(n, done + 1);
    }
    if names == [] {
      assert names + more == more;
    } else {
      assert (names + more)[1..] == names[1..] + more;
      RepliesNumbered(names[1..], done + 1, more);
    }
  }

  lemma FindChannelIs(channels: seq<Channel>, name: string, c: nat)
    requires c <= |channels| && (c < |channels| ==> channels[c].name == name)
    requires forall i :: 0 <= i < c ==> channels[i].name != name
    ensures FindChannel(channels, name) == c
  {}

  // ---------- the shared state, changed in place ----------

  class Hub {
    var channels: seq<Channel>

    constructor ()
      ensures channels == []
    {
      channels := [];
    }

    /** The walk to a channel by name. */
    method WalkTo(name: string) returns (c: nat)
      ensures c == FindChannel(channels, name)
    {
      c := 0;
      while c < |channels| && channels[c].name != name
        invariant c <= |channels| && forall i :: 0 <= i < c ==> channels[i].name != name
      {
        c := c + 1;
      }
      FindChannelIs(channels, name, c);
    }

    /** The walk to a client's node in a channel. */
    method NodeOf(c: nat, id: nat) returns (k: nat)
      requires c < |channels|
      ensures k == FirstIndex(channels[c].subs, id)
    {
      var subs := channels[c].subs;
      k := 0;
      while k < |subs| && subs[k] != id
        invariant k <= |subs| && forall i :: 0 <= i < k ==> subs[i] != id
      {
        k := k + 1;
      }
      FirstIndexIs(subs, id, k);
    }

    method SubscribeTo(id: nat, name: string)
      modifies this
      ensures channels == Subscribe(old(channels), id, name)
    {
      var c := WalkTo(name);
      if c == |channels| {
        channels := [Channel(name, [])] + channels;
        c := 0;
        FindChannelIs(channels, name, 0);
      }
      assert channels == WithChannel(old(channels), name) && c == FindChannel(channels, name);
      var k := NodeOf(c, id);
      if k < |channels[c].subs| { return; }
      channels := channels[c := Channel(name, [id] + channels[c].subs)];
    }

    method SubscribeClient(id: nat, names: seq<string>) returns (replies: string)
      modifies this
      ensures channels == SubscribeAll(old(channels), id, names)
      ensures replies == SubscribeReplies(names, 0)
    {
      hide Subscribe, SubscribeReply;
      replies := "";
      for i := 0 to |names|
        invariant SubscribeAll(channels, id, names[i..]) == SubscribeAll(old(channels), id, names)
        invariant replies + SubscribeReplies(names[i..], i) == SubscribeReplies(names, 0)
      {
        assert names[i..][1..] == names[i + 1..];
        SubscribeTo(id, names[i]);
        assert (replies + SubscribeReply(names[i], i + 1)) + SubscribeReplies(names[i + 1..], i + 1)
            == replies + (SubscribeReply(names[i], i + 1) + SubscribeReplies(names[i + 1..], i + 1));
        replies := replies + SubscribeReply(names[i], i + 1);
      }
    }

    /** Unlinks the client's node from one channel. */
    method Detach(c: nat, id: nat) returns (found: bool)
      requires c < |channels|
      modifies this
      ensures found == (id in old(channels)[c].subs)
      ensures channels == old(channels)[c := Channel(old(channels)[c].name, RemoveFirst(old(channels)[c].subs, id))]
    {
      var subs := channels[c].subs;
      var k := NodeOf(c, id);
      found := k < |subs|;
      if found {
        channels := channels[c := Channel(channels[c].name, subs[..k] + subs[k + 1..])];
      }
    }

    method UnsubscribeFrom(id: nat, name: string) returns (found: bool)
      modifies this
      ensures found == Subscribed(old(channels), id, name)
      ensures channels == Unsubscribe(old(channels), id, name)
    {
      var c := WalkTo(name);
      if c == |channels| { return false; }
      found := Detach(c, id);
    }

    /** The loop over all channels, shared by UNSUBSCRIBE without names and disconnection. */
    method DetachEverywhere(id: nat) returns (replies: string)
      modifies this
      ensures channels == RemoveClient(old(channels), id)
      ensures replies == AllReplies(old(channels), id)
    {
      hide RemoveFirst, UnsubscribeReply;
      replies := "";
      var was := channels;
      var c := 0;
      while c < |channels|
        invariant c <= |channels| == |was|
        invariant forall i :: 0 <= i < |was| ==>
          channels[i] == if i < c then Channel(was[i].name, RemoveFirst(was[i].subs, id)) else was[i]
        invariant replies + AllReplies(was[c..], id) == AllReplies(was, id)
      {
        assert was[c..][1..] == was[c + 1..];
        var found := Detach(c, id);
        var reply := if found then UnsubscribeReply(was[c].name) else "";
        assert (replies + reply) + AllReplies(was[c + 1..], id) == replies + (reply + AllReplies(was[c + 1..], id));
        replies := replies + reply;
        c := c + 1;
      }
    }

    method UnsubscribeClientFrom(id: nat, names: seq<string>) returns (replies: string)
      modifies this
      ensures (channels, replies) == UnsubscribeClient(old(channels), id, names)
    {
      hide Unsubscribe, UnsubscribeReply, Subscribed, AllReplies;
      if names == [] {
        replies := DetachEverywhere(id);
        if replies == "" { replies := NOT_SUBSCRIBED; }
        return;
      }
      replies := "";
      assert names[0..] == names && "" + UnsubscribeNames(channels, id, names).1 == UnsubscribeNames(channels, id, names).1;
      for i := 0 to |names|
        invariant var (r, more) := UnsubscribeNames(channels, id, names[i..]);
          UnsubscribeNames(old(channels), id, names) == (r, replies + more)
      {
        ghost var more := UnsubscribeNames(Unsubscribe(channels, id, names[i]), id, names[i + 1..]).1;
        assert names[i..][1..] == names[i + 1..];
        var found := UnsubscribeFrom(id, names[i]);
        var reply := if found then UnsubscribeReply(names[i]) else "";
        assert (replies + reply) + more == replies + (reply + more);
        replies := replies + reply;
      }
      assert names[|names|..] == [] && replies + "" == replies;
    }

    /** The subscribers a message goes to. */
    method Publish(name: string) returns (receivers: seq<nat>)
      ensures receivers == Receivers(channels, name)
    {
      var c := WalkTo(name);
      receivers := if c < |channels| then channels[c].subs else [];
    }
  }
}
