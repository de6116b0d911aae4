/** The primary's side of replication (src/replication.c): the list of replicas, the
    snapshot sent to a new one, and the feed of write commands. */
module Replication {
  import opened Text
  import opened Seqs
  import opened HashTable
  import opened TableLaws
  import opened SyncLine
  import opened DictHeap

  /** Bytes accepted by a socket. */
  datatype Sent = Sent(to: int, bytes: string)

  /** How writes to replicas fare at the moment, and the clock. */
  datatype Env = Env(now: nat, blocked: set<int>, broken: set<int>)

  datatype Fate = Full | WouldBlock | Failed

  /** A negative descriptor is never writable. */
  function Write(fd: int, env: Env): Fate {
    if fd < 0 || fd in env.broken then Failed else if fd in env.blocked then WouldBlock else Full
  }

  /** `server_repl`: the role, the replicas (newest first) and the offset. */
  datatype Link = Link(primary: bool, replicas: seq<int>, offset: nat)

  /** A command as propagated: closed by CRLF if it is not already. */
  function Frame(cmd: string): string {
    if |cmd| >= 2 && cmd[|cmd| - 2..] == CRLF then cmd else cmd + CRLF
  }

  function FeedWrites(replicas: seq<int>, frame: string, env: Env): seq<Sent> {
    if replicas == [] then []
    else (if Write(replicas[0], env) == Full then [Sent(replicas[0], frame)] else []) + FeedWrites(replicas[1..], frame, env)
  }

  /** The replicas a feed gives up on; at most 100 are remembered. */
  function Doomed(replicas: seq<int>, env: Env): seq<int> {
    if replicas == [] then []
    else
      var rest := Doomed(replicas[..|replicas| - 1], env);
      if Write(replicas[|replicas| - 1], env) == Failed && |rest| < 100 then rest + [replicas[|replicas| - 1]] else rest
  }

  function RemoveFds(replicas: seq<int>, fds: seq<int>): seq<int>
    decreases |fds|
  {
    if fds == [] then replicas else RemoveFds(RemoveFirst(replicas, fds[0]), fds[1..])
  }

  /** `replication_feed_slaves`: a write that would block is dropped, not retried. */
  function Feed(l: Link, cmd: string, env: Env): (Link, seq<Sent>) {
    if !l.primary then (l, [])
    else
      var frame := Frame(cmd);
      var writes := FeedWrites(l.replicas, frame, env);
      (Link(true, RemoveFds(l.replicas, Doomed(l.replicas, env)), l.offset + |frame| * |writes|), writes)
  }

  // ---------- the snapshot for a new replica ----------

  /** Whole seconds left to live, zero for an entry without expiry or in its last second. */
  function SecondsLeft(expire: nat, now: nat): nat {
    if expire > now then (expire - now) / 1000 else 0
  }

  function ExpireLine(key: string, seconds: nat): string {
    "EXPIRE " + key + " " + Decimal(seconds)
  }

  /** The lines for one entry, each closed by CRLF. */
  function EntryLines(it: Item, now: nat): seq<string> {
    if Expired(it.obj, now) then []
    else [SetLine(it.key, it.obj.data) + CRLF] +
         if SecondsLeft(it.obj.expire, now) > 0 then [ExpireLine(it.key, SecondsLeft(it.obj.expire, now)) + CRLF] else []
  }

  function SentLines(fd: int, lines: seq<string>): seq<Sent> {
    if lines == [] then [] else [Sent(fd, lines[0])] + SentLines(fd, lines[1..])
  }

  /** `sync_replica`: the unexpired entries in scan order; nothing gets through a socket
      that cannot be written. */
  function SyncWrites(items: seq<Item>, fd: int, env: Env): seq<Sent> {
    if items == [] then []
    else
      var n := |items| - 1;
      SyncWrites(items[..n], fd, env) + if Write(fd, env) == Full then SentLines(fd, EntryLines(items[n], env.now)) else []
  }

  // ---------- facts ----------

  lemma {:induction false} RemoveFdsKeeps(replicas: seq<int>, fds: seq<int>, r: int)
    requires r !in fds
    ensures multiset(RemoveFds(replicas, fds))[r] == multiset(replicas)[r]
    decreases |fds|
  {
    if fds != [] {
      RemoveFdKeeps(replicas, fds[0], r);
      RemoveFdsKeeps(RemoveFirst(replicas, fds[0]), fds[1..], r);
    }
  }

  lemma RemoveFdKeeps(replicas: seq<int>, fd: int, r: int)
    requires r != fd
    ensures multiset(RemoveFirst(replicas, fd))[r] == multiset(replicas)[r]
  {
    var k := FirstIndex(replicas, fd);
    if k < |replicas| {
      assert replicas == replicas[..k] + ([replicas[k]] + replicas[k + 1..]);
    }
  }

  lemma {:induction false} DoomedFailed(replicas: seq<int>, env: Env)
    ensures forall r :: r in Doomed(replicas, env) ==> Write(r, env) == Failed
  {
    if replicas != [] { DoomedFailed(replicas[..|replicas| - 1], env); }
  }

  /** A feed keeps every replica that can be written. */
  lemma FeedKeeps(l: Link, cmd: string, env: Env, r: int)
    requires Write(r, env) != Failed
    ensures multiset(Feed(l, cmd, env).0.replicas)[r] == multiset(l.replicas)[r]
  {
    DoomedFailed(l.replicas, env);
    RemoveFdsKeeps(l.replicas, Doomed(l.replicas, env), r);
  }

  /** Nothing is sent of an expired entry, nor through a socket that cannot be written. */
  lemma StaleNotSent(it: Item, now: nat)
    ensures it.obj.expire != 0 && it.obj.expire < now <==> EntryLines(it, now) == []
  {}

  lemma {:induction false} UnwritableNotSent(items: seq<Item>, fd: int, env: Env)
    requires Write(fd, env) != Full
    ensures SyncWrites(items, fd, env) == []
  {
    if items != [] { UnwritableNotSent(items[..|items| - 1], fd, env); }
  }

  /** Every replica that can be written is sent the frame, as often as it is listed, and
      nobody anything else; the offset grows by the bytes sent. */
  lemma {:induction false} FeedReaches(replicas: seq<int>, frame: string, env: Env, s: Sent)
    ensures multiset(FeedWrites(replicas, frame, env))[s] ==
      if s.bytes == frame && Write(s.to, env) == Full then multiset(replicas)[s.to] else 0
  {
    hide Write;
    if replicas != [] {
      FeedReaches(replicas[1..], frame, env, s);
      assert replicas == [replicas[0]] + replicas[1..];
    }
  }

  lemma FeedOffset(l: Link, cmd: string, env: Env)
    ensures var (l', writes) := Feed(l, cmd, env);
      && l'.primary == l.primary
      && (l.primary ==> writes == FeedWrites(l.replicas, Frame(cmd), env))
      && (!l.primary ==> writes == [] && l' == l)
      && l'.offset == l.offset + |Frame(cmd)| * |writes|
  {
    assert |Frame(cmd)| * 0 == 0;
  }

  lemma {:induction false} DoomedAll(replicas: seq<int>, env: Env, r: int)
    requires |replicas| <= 100 && Write(r, env) == Failed
    ensures |Doomed(replicas, env)| <= |replicas| && multiset(Doomed(replicas, env))[r] == multiset(replicas)[r]
  {
    hide Write;
    if replicas != [] {
      var n := |replicas| - 1;
      DoomedAll(replicas[..n], env, r);
      assert replicas == replicas[..n] + [replicas[n]];
    }
  }

  lemma {:induction false} RemoveFdsCount(replicas: seq<int>, fds: seq<int>, r: int)
    requires multiset(fds)[r] >= multiset(replicas)[r]
    ensures multiset(RemoveFds(replicas, fds))[r] == 0
    decreases |fds|
  {
    if fds != [] {
      assert fds == [fds[0]] + fds[1..];
      if fds[0] == r { RemoveFdCount(replicas, r); } else { RemoveFdKeeps(replicas, fds[0], r); }
      RemoveFdsCount(RemoveFirst(replicas, fds[0]), fds[1..], r);
    }
  }

  lemma RemoveFdCount(replicas: seq<int>, r: int)
    ensures multiset(RemoveFirst(replicas, r))[r] == if multiset(replicas)[r] == 0 then 0 else multiset(replicas)[r] - 1
  {
    var k := FirstIndex(replicas, r);
    if k < |replicas| {
      assert replicas == replicas[..k] + ([replicas[k]] + replicas[k + 1..]);
    } else {
      assert r !in replicas;
    }
  }

  /** A primary with at most 100 replicas forgets every replica whose write failed. */
  lemma FeedDrops(l: Link, cmd: string, env: Env, r: int)
    requires l.primary && |l.replicas| <= 100 && Write(r, env) == Failed
    ensures r !in Feed(l, cmd, env).0.replicas
  {
    DoomedAll(l.replicas, env, r);
    RemoveFdsCount(l.replicas, Doomed(l.replicas, env), r);
    assert multiset(Feed(l, cmd, env).0.replicas)[r] == 0;
  }

  // ---------- the shared state, changed in place ----------

  /** Everything written so far, in order. */
  class Network {
    var sent: seq<Sent>

    constructor ()
      ensures sent == []
    {
      sent := [];
    }

    /** `write` to a client or replica socket. */
    method Write(fd: int, bytes: string, fate: Fate)
      modifies this
      ensures sent == old(sent) + if fate == Full then [Sent(fd, bytes)] else []
    {
      if fate == Full { sent := sent + [Sent(fd, bytes)]; }
    }
  }

  class ReplicaList {
    var primary: bool
    var replicas: seq<int>
    var offset: nat

    /** `replication_init`. */
    constructor ()
      ensures Value() == Link(true, [], 0)
    {
      primary, replicas, offset := true, [], 0;
    }

    ghost function Value(): Link
      reads this
    {
      Link(primary, replicas, offset)
    }

    /** `remove_replica`. */
    method Remove(fd: int)
      modifies this`replicas
      ensures replicas == RemoveFirst(old(replicas), fd)
    {
      var k := 0;
      while k < |replicas| && replicas[k] != fd
        invariant k <= |replicas| && forall i :: 0 <= i < k ==> replicas[i] != fd
      {
        k := k + 1;
      }
      FirstIndexIs(replicas, fd, k);
      if k < |replicas| { replicas := replicas[..k] + replicas[k + 1..]; }
    }

    /** `replication_feed_slaves`. */
    method FeedReplicas(cmd: string, env: Env, net: Network)
      modifies this, net
      ensures var (l, writes) := Feed(old(Value()), cmd, env);
        Value() == l && net.sent == old(net.sent) + writes
    {
      hide RemoveFirst, RemoveFds, Frame, Write, FeedWrites, Doomed;
      FeedStart(replicas, Frame(cmd), env);
      if !primary { return; }
      var frame := Frame(cmd);
      var toRemove: seq<int> := [];
      ghost var written: seq<Sent> := [];
      var i := 0;
      while i < |replicas|
        invariant i <= |replicas| && replicas == old(replicas) && primary
        invariant toRemove == Doomed(replicas[..i], env)
        invariant FeedWrites(replicas, frame, env) == written + FeedWrites(replicas[i..], frame, env)
        invariant net.sent == old(net.sent) + written
        invariant offset == old(offset) + |frame| * |written|
      {
        FeedStep(replicas, i, frame, env);
        var fate := Write(replicas[i], env);
        net.Write(replicas[i], frame, fate);
        if fate == Full {
          offset := offset + |frame|;
          MulNext(|frame|, |written|);
          assert written + ([Sent(replicas[i], frame)] + FeedWrites(replicas[i + 1..], frame, env))
              == (written + [Sent(replicas[i], frame)]) + FeedWrites(replicas[i + 1..], frame, env);
          written := written + [Sent(replicas[i], frame)];
        } else if fate == Failed && |toRemove| < 100 {
          toRemove := toRemove + [replicas[i]];
        }
        i := i + 1;
      }
      assert replicas[..i] == replicas && replicas[i..] == [] && written + [] == written;
      RemoveMarked(toRemove);
    }

    method RemoveMarked(fds: seq<int>)
      modifies this`replicas
      ensures replicas == RemoveFds(old(replicas), fds)
    {
      hide RemoveFirst;
      for i := 0 to |fds|
        invariant RemoveFds(replicas, fds[i..]) == RemoveFds(old(replicas), fds)
      {
        assert fds[i..][1..] == fds[i + 1..];
        Remove(fds[i]);
      }
    }

    /** `add_replica` with its initial synchronisation. */
    method AddReplica(fd: int, d: Dict, env: Env, net: Network)
      requires d.Valid()
      modifies this`replicas, net
      ensures replicas == [fd] + old(replicas)
      ensures net.sent == old(net.sent) + SyncWrites(Flatten(d.rows), fd, env)
    {
      replicas := [fd] + replicas;
      SyncReplica(fd, d, env, net);
    }

    /** `sync_replica`: the double loop over the linked table. */
    method SyncReplica(fd: int, d: Dict, env: Env, net: Network)
      requires d.Valid()
      modifies net
      ensures net.sent == old(net.sent) + SyncWrites(Flatten(d.rows), fd, env)
    {
      hide Wf, Linked, Flatten, Write, SyncWrites;
      FlattenNone(d.rows);
      SyncNone(fd, env);
      var i := 0;
      while i < d.size
        invariant i <= d.size
        invariant net.sent == old(net.sent) + SyncWrites(Flatten(d.rows[..i]), fd, env)
      {
        FlattenNext(d.rows, i);
        SyncChain(fd, d, i, env, net);
        SyncAppend(Flatten(d.rows[..i]), d.rows[i], fd, env);
        i := i + 1;
      }
      assert d.rows[..d.size] == d.rows;
    }

    method SyncChain(fd: int, d: Dict, i: nat, env: Env, net: Network)
      requires d.Valid() && i < d.size
      modifies net
      ensures net.sent == old(net.sent) + SyncWrites(d.rows[i], fd, env)
    {
      hide Wf, Linked, SetLine, ExpireLine, Write, SyncWrites, EntryLines, SentLines;
      SyncNone(fd, env);
      ghost var start, row := net.sent, d.rows[i];
      var entry, prev := d.table[i], null;
      ghost var j := 0;
      d.RowLength(i);
      d.HeadOf(i);
      assert row[..0] == [];
      while entry != null
        invariant d.At(i, j, prev, entry) && j <= |row|
        invariant net.sent == start + SyncWrites(row[..j], fd, env)
        decreases |row| - j
      {
        d.EntryOf(i, j);
        d.NextOf(i, j);
        SyncNext(row, j, fd, env);
        SyncEntry(fd, entry.key, entry.val, env, net);
        prev, entry, j := entry, entry.next, j + 1;
      }
      assert row[..j] == row;
    }

    /** One entry: the SET line and, when that went through and whole seconds are left, the
        EXPIRE line. */
    method SyncEntry(fd: int, key: string, o: Obj, env: Env, net: Network)
      modifies net
      ensures net.sent == old(net.sent) +
        if Write(fd, env) == Full then SentLines(fd, EntryLines(Item(key, o), env.now)) else []
    {
      hide SetLine, ExpireLine, Write;
      if o.expire != 0 && o.expire < env.now { return; }
      var fate := Write(fd, env);
      var first := SetLine(key, o.data) + CRLF;
      net.Write(fd, first, fate);
      if fate == Full && o.expire != 0 && o.expire > env.now && (o.expire - env.now) / 1000 > 0 {
        var second := ExpireLine(key, (o.expire - env.now) / 1000) + CRLF;
        net.Write(fd, second, fate);
        SentTwo(fd, first, second);
        assert EntryLines(Item(key, o), env.now) == [first, second];
      }
    }
  }

  lemma FeedStart(replicas: seq<int>, frame: string, env: Env)
    ensures FeedWrites(replicas, frame, env) == [] + FeedWrites(replicas[0..], frame, env)
    ensures Doomed(replicas[..0], env) == [] && FeedWrites([], frame, env) == []
  {
    assert replicas[0..] == replicas;
  }

  lemma FeedStep(replicas: seq<int>, i: nat, frame: string, env: Env)
    requires i < |replicas|
    ensures FeedWrites(replicas[i..], frame, env) ==
      (if Write(replicas[i], env) == Full then [Sent(replicas[i], frame)] else []) + FeedWrites(replicas[i + 1..], frame, env)
    ensures Doomed(replicas[..i + 1], env) ==
      Doomed(replicas[..i], env) +
        if Write(replicas[i], env) == Failed && |Doomed(replicas[..i], env)| < 100 then [replicas[i]] else []
  {
    assert replicas[i..][1..] == replicas[i + 1..] && replicas[..i + 1][..i] == replicas[..i];
  }

  lemma SentTwo(fd: int, first: string, second: string)
    ensures SentLines(fd, [first, second]) == [Sent(fd, first)] + [Sent(fd, second)]
  {
    assert [first, second][1..] == [second] && [second][1..] == [];
    assert SentLines(fd, [second]) == [Sent(fd, second)] + SentLines(fd, []);
  }

  lemma SyncNone(fd: int, env: Env)
    ensures SyncWrites([], fd, env) == []
  {}

  lemma SyncNext(row: seq<Item>, j: nat, fd: int, env: Env)
    requires j < |row|
    ensures SyncWrites(row[..j + 1], fd, env) ==
      SyncWrites(row[..j], fd, env) + if Write(fd, env) == Full then SentLines(fd, EntryLines(row[j], env.now)) else []
  {
    assert row[..j + 1][..j] == row[..j];
  }

  lemma {:induction false} SyncAppend(a: seq<Item>, b: seq<Item>, fd: int, env: Env)
    ensures SyncWrites(a + b, fd, env) == SyncWrites(a, fd, env) + SyncWrites(b, fd, env)
  {
    hide EntryLines, Write, SentLines;
    if b == [] {
      assert a + b == a;
    } else {
      assert (a + b)[..|a + b| - 1] == a + b[..|b| - 1];
      SyncAppend(a, b[..|b| - 1], fd, env);
    }
  }
}
