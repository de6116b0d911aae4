/** The RDB image of src/persistence.c as a byte string: what is written for a table, what
    a reader makes of any file, and how the two undo each other. */
module Snapshot {
  import opened Text
  import opened HashTable
  import opened TableLaws
  import opened Eviction

  // ---------- integers, little-endian ----------

  function Byte(n: nat): char
    requires n < 256
  {
    n as char
  }

  function LE(n: nat, width: nat): (s: string)
    ensures |s| == width
  {
    if width == 0 then "" else [Byte(n % 256)] + LE(n / 256, width - 1)
  }

  function UnLE(s: string): nat {
    if s == "" then 0 else s[0] as int + 256 * UnLE(s[1..])
  }

  function Pow256(k: nat): nat {
    if k == 0 then 1 else 256 * Pow256(k - 1)
  }

  lemma {:induction false} LERoundTrip(n: nat, width: nat)
    requires n < Pow256(width)
    ensures UnLE(LE(n, width)) == n
  {
    if width > 0 {
      assert LE(n, width)[1..] == LE(n / 256, width - 1);
      LERoundTrip(n / 256, width - 1);
    }
  }

  lemma Widths()
    ensures Pow256(8) == TWO64 && Pow256(4) == 0x1_0000_0000
  {
    assert Pow256(2) == 0x1_0000;
    assert Pow256(4) == 0x1_0000_0000;
    assert Pow256(6) == 0x1_0000_0000_0000;
  }

  // ---------- the writer ----------

  const RDB_MAGIC: string := "CCDB"
  const RDB_VERSION: nat := 1
  const RDB_SET: nat := 1
  const RDB_END: nat := 255
  const CC_STRING: nat := 0

  /** `rdb_save_string`. */
  function SavedString(s: string): string { LE(|s|, 8) + s }

  function SavedExpiry(expire: nat): string {
    if expire != 0 then [Byte(1)] + LE(expire, 8) else [Byte(0)]
  }

  function Record(it: Item): string {
    SavedString(it.key) + (LE(CC_STRING, 4) + (SavedExpiry(it.obj.expire) + ([Byte(RDB_SET)] + SavedString(it.obj.data))))
  }

  function Records(items: seq<Item>): string {
    if items == [] then "" else Record(items[0]) + Records(items[1..])
  }

  /** The entry count in the header is `used`, expired entries included. */
  function Header(used: nat): string {
    RDB_MAGIC + (LE(RDB_VERSION, 4) + LE(used, 8))
  }

  /** The whole file: the header, a record for each entry not expired, the end marker. */
  function Image(t: Table, now: nat): string
    requires t.used >= 0
  {
    Header(t.used) + (Records(Fresh(Flatten(t.rows), now)) + [Byte(RDB_END)])
  }

  // ---------- the format, byte by byte ----------

  /** One record in full: length and key, type, expiry flag and expiry, command, length and
      value. */
  lemma RecordBytes(size: nat, access: nat)
    ensures Record(Item("k", Obj("vw", 258, size, access))) ==
      "\U{0001}\0\0\0\0\0\0\0k" + "\0\0\0\0" + "\U{0001}" + "\U{0002}\U{0001}\0\0\0\0\0\0" + "\U{0001}" +
      "\U{0002}\0\0\0\0\0\0\0vw"
    ensures SavedExpiry(0) == "\0"
  {
    hide LE;
    SmallNumbers();
    FourZeros();
    assert SavedExpiry(258) == "\U{0001}" + "\U{0002}\U{0001}\0\0\0\0\0\0";
  }

  lemma SmallNumbers()
    ensures LE(1, 8) == "\U{0001}\0\0\0\0\0\0\0" && LE(2, 8) == "\U{0002}\0\0\0\0\0\0\0"
    ensures LE(258, 8) == "\U{0002}\U{0001}\0\0\0\0\0\0"
  {
    assert LE(0, 7) == "\0\0\0\0\0\0\0" by { SevenZeros(); }
    assert LE(1, 7) == "\U{0001}\0\0\0\0\0\0" by { SevenZeros(); }
  }

  lemma FourZeros()
    ensures LE(0, 4) == "\0\0\0\0" && LE(0, 6) == "\0\0\0\0\0\0"
  {
    assert LE(0, 2) == "\0\0";
    assert LE(0, 3) == "\0\0\0";
    assert LE(0, 4) == "\0\0\0\0";
    assert LE(0, 5) == "\0\0\0\0\0";
  }

  lemma SevenZeros()
    ensures LE(0, 7) == "\0\0\0\0\0\0\0" && LE(1, 7) == "\U{0001}\0\0\0\0\0\0"
  {
    FourZeros();
  }

  /** The image of a table in which nothing is stored: magic, version, count, end marker. */
  lemma EmptyImage(t: Table, now: nat)
    requires Wf(t) && t.used == 0
    ensures Image(t, now) == "CCDB" + "\U{0001}\0\0\0" + "\0\0\0\0\0\0\0\0" + "\U{00FF}"
  {
    hide Wf, Flatten;
    UsedIs(t);
    assert Flatten(t.rows) == [];
    FreshEmpty(now);
    assert Records([]) == "";
    assert LE(0, 8) == "\0\0\0\0\0\0\0\0" by { SevenZeros(); }
    assert LE(1, 4) == "\U{0001}\0\0\0" by { assert LE(0, 2) == "\0\0"; assert LE(0, 3) == "\0\0\0"; }
  }

  // ---------- the reader ----------

  /** A read that found fewer bytes than it wanted, or what it read and what is left. */
  datatype Got<+T> = Short | Got(value: T, rest: string)

  function ReadBytes(s: string, n: nat): Got<string> {
    if |s| < n then Short else Got(s[..n], s[n..])
  }

  function ReadInt(s: string, width: nat): Got<nat> {
    if |s| < width then Short else Got(UnLE(s[..width]), s[width..])
  }

  /** `rdb_load_string`. */
  function ReadString(s: string): Got<string> {
    match ReadInt(s, 8)
    case Short => Short
    case Got(n, s1) => ReadBytes(s1, n)
  }

  /** The value part: its command byte must be RDB_SET. */
  function ReadValue(s: string): Got<string> {
    match ReadInt(s, 1)
    case Short => Short
    case Got(cmd, s1) => if cmd == RDB_SET then ReadString(s1) else Short
  }

  /** The value part of an entry skipped because it has expired: other commands carry no data. */
  function SkipValue(s: string): Got<()> {
    match ReadInt(s, 1)
    case Short => Short
    case Got(cmd, s1) =>
      if cmd == RDB_SET then
        match ReadString(s1)
        case Short => Short
        case Got(_, s2) => Got((), s2)
      else Got((), s1)
  }

  /** The expiry part; zero when there is none. */
  function ReadExpiry(s: string): Got<Option<nat>> {
    match ReadInt(s, 1)
    case Short => Short
    case Got(has, s1) =>
      if has == 0 then Got(None, s1)
      else match ReadInt(s1, 8)
        case Short => Short
        case Got(e, s2) => Got(Some(e), s2)
  }

  /** One entry: nothing for an expired one; otherwise the object that goes to `dict_add`,
      where key and value are C strings but the size counts every byte read. */
  function ReadRecord(s: string, now: nat): Got<Option<Item>> {
    match ReadString(s)
    case Short => Short
    case Got(key, s1) => match ReadInt(s1, 4)
      case Short => Short
      case Got(_, s2) => match ReadExpiry(s2)
        case Short => Short
        case Got(e, s3) =>
          if e.Some? && e.value < now then
            match SkipValue(s3)
            case Short => Short
            case Got(_, s4) => Got(None, s4)
          else
            match ReadValue(s3)
            case Short => Short
            case Got(v, s4) =>
              Got(Some(Item(CStr(key), Obj(CStr(v), if e.Some? then e.value else 0, |v| + 1, now))), s4)
  }

  datatype Loaded = Loaded(ok: bool, table: Table)

  function AddRead(t: Table, it: Option<Item>, now: nat): (t': Table)
    requires Wf(t)
    ensures Wf(t') && t'.limit == t.limit
  {
    match it
    case None => t
    case Some(i) => AddLaw(t, i.key, i.obj, now); Add(t, i.key, i.obj, now)
  }

  /** `count` entries and the end marker. */
  function LoadBody(t: Table, s: string, count: nat, now: nat): (r: Loaded)
    requires Wf(t)
    ensures Wf(r.table) && r.table.limit == t.limit
    decreases count
  {
    if count == 0 then
      match ReadInt(s, 1)
      case Short => Loaded(false, t)
      case Got(m, _) => Loaded(m == RDB_END, t)
    else
      match ReadRecord(s, now)
      case Short => Loaded(false, t)
      case Got(it, rest) => LoadBody(AddRead(t, it, now), rest, count - 1, now)
  }

  /** What `fopen` finds: no such file, one it cannot open, or its bytes. */
  datatype File = Missing | Unreadable | Readable(bytes: string)

  /** `load_rdb_from_file`; a missing file is no error, one that cannot be opened is. */
  function Load(t: Table, file: File, now: nat): (r: Loaded)
    requires Wf(t)
    ensures Wf(r.table) && r.table.limit == t.limit
  {
    match file
    case Missing => Loaded(true, t)
    case Unreadable => Loaded(false, t)
    case Readable(s) => match ReadBytes(s, 4)
      case Short => Loaded(false, t)
      case Got(magic, s1) =>
        if magic != RDB_MAGIC then Loaded(false, t)
        else match ReadInt(s1, 4)
          case Short => Loaded(false, t)
          case Got(version, s2) =>
            if version != RDB_VERSION then Loaded(false, t)
            else match ReadInt(s2, 8)
              case Short => Loaded(false, t)
              case Got(count, s3) => LoadBody(t, s3, count, now)
  }

  // ---------- a record is read back ----------

  /** What fits the format: C strings with 64-bit lengths, 64-bit times. */
  predicate Storable(it: Item) {
    && NulFree(it.key) && NulFree(it.obj.data)
    && |it.key| < TWO64 && |it.obj.data| < TWO64 && it.obj.expire < TWO64
  }

  ghost predicate AllStorable(items: seq<Item>) {
    forall i :: 0 <= i < |items| ==> Storable(items[i])
  }

  lemma ReadIntBack(n: nat, width: nat, rest: string)
    requires n < Pow256(width)
    ensures ReadInt(LE(n, width) + rest, width) == Got(n, rest)
  {
    hide LE, UnLE, Pow256;
    var s := LE(n, width) + rest;
    assert s[..width] == LE(n, width) && s[width..] == rest;
    LERoundTrip(n, width);
  }

  lemma ReadByteBack(n: nat, rest: string)
    requires n < 256
    ensures ReadInt([Byte(n)] + rest, 1) == Got(n, rest)
  {
    assert Pow256(1) == 256;
    assert LE(n, 1) == [Byte(n)];
    ReadIntBack(n, 1, rest);
  }

  lemma ReadStringBack(v: string, rest: string)
    requires |v| < TWO64
    ensures ReadString(SavedString(v) + rest) == Got(v, rest)
  {
    hide LE, UnLE, Pow256;
    Widths();
    assert SavedString(v) + rest == LE(|v|, 8) + (v + rest);
    ReadIntBack(|v|, 8, v + rest);
    assert (v + rest)[..|v|] == v && (v + rest)[|v|..] == rest;
  }

  lemma ReadExpiryBack(expire: nat, rest: string)
    requires expire < TWO64
    ensures ReadExpiry(SavedExpiry(expire) + rest) == Got(if expire == 0 then None else Some(expire), rest)
  {
    hide LE, UnLE, Pow256, ReadInt;
    Widths();
    if expire == 0 {
      ReadByteBack(0, rest);
    } else {
      assert SavedExpiry(expire) + rest == [Byte(1)] + (LE(expire, 8) + rest);
      ReadByteBack(1, LE(expire, 8) + rest);
      ReadIntBack(expire, 8, rest);
    }
  }

  lemma ReadValueBack(v: string, rest: string)
    requires |v| < TWO64
    ensures ReadValue([Byte(RDB_SET)] + SavedString(v) + rest) == Got(v, rest)
    ensures SkipValue([Byte(RDB_SET)] + SavedString(v) + rest) == Got((), rest)
  {
    hide LE, UnLE, Pow256, ReadInt, ReadString, SavedString;
    assert [Byte(RDB_SET)] + SavedString(v) + rest == [Byte(RDB_SET)] + (SavedString(v) + rest);
    ReadByteBack(RDB_SET, SavedString(v) + rest);
    ReadStringBack(v, rest);
  }

  /** What the reader makes of a record at time `now`. */
  function Restored(it: Item, now: nat): Option<Item> {
    if Expired(it.obj, now) then None
    else Some(Item(it.key, Obj(it.obj.data, it.obj.expire, |it.obj.data| + 1, now)))
  }

  lemma Assoc4(a: string, b: string, c: string, d: string, e: string)
    ensures (a + (b + (c + d))) + e == a + (b + (c + (d + e)))
  {}

  lemma RecordReadBack(it: Item, rest: string, now: nat)
    requires Storable(it)
    ensures ReadRecord(Record(it) + rest, now) == Got(Restored(it, now), rest)
  {
    hide LE, UnLE, Pow256, ReadInt, ReadString, SavedString, SavedExpiry, ReadExpiry, ReadValue, SkipValue;
    Widths();
    var value := [Byte(RDB_SET)] + SavedString(it.obj.data);
    var s3 := value + rest;
    var s2 := SavedExpiry(it.obj.expire) + s3;
    var s1 := LE(CC_STRING, 4) + s2;
    Assoc4(SavedString(it.key), LE(CC_STRING, 4), SavedExpiry(it.obj.expire), value, rest);
    assert Record(it) + rest == SavedString(it.key) + s1;
    ReadStringBack(it.key, s1);
    ReadIntBack(CC_STRING, 4, s2);
    ReadExpiryBack(it.obj.expire, s3);
    ReadValueBack(it.obj.data, rest);
  }

  // ---------- reading only looks ahead as far as it consumes ----------

  lemma ReadIntMore(s: string, width: nat, more: string)
    requires ReadInt(s, width).Got?
    ensures ReadInt(s + more, width) == Got(ReadInt(s, width).value, ReadInt(s, width).rest + more)
  {
    hide UnLE;
    assert (s + more)[..width] == s[..width] && (s + more)[width..] == s[width..] + more;
  }

  lemma ReadStringMore(s: string, more: string)
    requires ReadString(s).Got?
    ensures ReadString(s + more) == Got(ReadString(s).value, ReadString(s).rest + more)
  {
    hide ReadInt;
    ReadIntMore(s, 8, more);
    var n, s1 := ReadInt(s, 8).value, ReadInt(s, 8).rest;
    assert (s1 + more)[..n] == s1[..n] && (s1 + more)[n..] == s1[n..] + more;
  }

  lemma ReadPartsMore(s: string, more: string)
    ensures ReadExpiry(s).Got? ==> ReadExpiry(s + more) == Got(ReadExpiry(s).value, ReadExpiry(s).rest + more)
    ensures ReadValue(s).Got? ==> ReadValue(s + more) == Got(ReadValue(s).value, ReadValue(s).rest + more)
    ensures SkipValue(s).Got? ==> SkipValue(s + more) == Got((), SkipValue(s).rest + more)
  {
    hide ReadInt, ReadString;
    if ReadInt(s, 1).Got? {
      ReadIntMore(s, 1, more);
      var s1 := ReadInt(s, 1).rest;
      if ReadInt(s1, 8).Got? { ReadIntMore(s1, 8, more); }
      if ReadString(s1).Got? { ReadStringMore(s1, more); }
    }
  }

  lemma ReadRecordMore(s: string, now: nat, more: string)
    requires ReadRecord(s, now).Got?
    ensures ReadRecord(s + more, now) == Got(ReadRecord(s, now).value, ReadRecord(s, now).rest + more)
  {
    hide ReadInt, ReadString, ReadExpiry, ReadValue, SkipValue, CStr;
    ReadStringMore(s, more);
    var s1 := ReadString(s).rest;
    ReadIntMore(s1, 4, more);
    var s2 := ReadInt(s1, 4).rest;
    ReadPartsMore(s2, more);
    ReadPartsMore(ReadExpiry(s2).rest, more);
  }

  /** So a record cut short is never read. */
  lemma TruncatedRecord(it: Item, part: string, missing: string, now: nat)
    requires Storable(it) && part + missing == Record(it) && missing != ""
    ensures ReadRecord(part, now) == Short
  {
    hide ReadRecord, Record, Restored;
    if ReadRecord(part, now).Got? {
      ReadRecordMore(part, now, missing);
      assert Record(it) + "" == Record(it);
      RecordReadBack(it, "", now);
    }
  }

  // ---------- whole files ----------

  /** Adding the restored entries one by one. */
  function Restore(t: Table, items: seq<Item>, now: nat): (t': Table)
    requires Wf(t)
    ensures Wf(t') && t'.limit == t.limit
    decreases |items|
  {
    if items == [] then t else Restore(AddRead(t, Restored(items[0], now), now), items[1..], now)
  }

  lemma BodyEnd(t: Table, now: nat)
    requires Wf(t)
    ensures LoadBody(t, [Byte(RDB_END)], 0, now) == Loaded(true, t)
    ensures LoadBody(t, "", 0, now) == Loaded(false, t)
    ensures forall count: nat :: count > 0 ==> LoadBody(t, [Byte(RDB_END)], count, now) == Loaded(false, t)
  {
    ReadByteBack(RDB_END, "");
    assert [Byte(RDB_END)] + "" == [Byte(RDB_END)];
  }

  lemma BodyStep(t: Table, s: string, count: nat, now: nat)
    requires Wf(t) && count > 0
    ensures LoadBody(t, s, count, now) ==
      if ReadRecord(s, now).Short? then Loaded(false, t)
      else LoadBody(AddRead(t, ReadRecord(s, now).value, now), ReadRecord(s, now).rest, count - 1, now)
  {}

  lemma {:induction false} LoadAll(t: Table, items: seq<Item>, count: nat, now: nat)
    requires Wf(t) && AllStorable(items) && count >= |items|
    ensures LoadBody(t, Records(items) + [Byte(RDB_END)], count, now) == Loaded(count == |items|, Restore(t, items, now))
    decreases |items|
  {
    hide Wf, LoadBody, ReadRecord, Record, Restored, AddRead;
    var end := [Byte(RDB_END)];
    if items == [] {
      assert Records(items) + end == end;
      BodyEnd(t, now);
    } else {
      var rest := Records(items[1..]) + end;
      assert Records(items) + end == Record(items[0]) + rest;
      RecordReadBack(items[0], rest, now);
      BodyStep(t, Record(items[0]) + rest, count, now);
      LoadAll(AddRead(t, Restored(items[0], now), now), items[1..], count - 1, now);
    }
  }

  lemma {:induction false} RestoreContents(t: Table, items: seq<Item>, now: nat)
    requires Wf(t) && t.limit == 0 && DistinctKeys(items)
    ensures Contents(Restore(t, items, now)) == Contents(t) + Back(ToMap(items), now)
    decreases |items|
  {
    hide Wf, Contents, AddRead, Restored, ToMap, Back, Expired, Reborn;
    if items == [] {
      BackNone(now);
      assert Contents(t) + map[] == Contents(t);
    } else {
      var it := items[0];
      var t1 := AddRead(t, Restored(it, now), now);
      ReadBackAdds(t, it, now);
      RestoreContents(t1, items[1..], now);
      BackFirst(items, now);
      var m, later := Contents(t), Back(ToMap(items[1..]), now);
      if !Expired(it.obj, now) {
        assert m[it.key := Reborn(it.obj, now)] + later == m + later[it.key := Reborn(it.obj, now)];
      }
    }
  }

  lemma ReadBackAdds(t: Table, it: Item, now: nat)
    requires Wf(t) && t.limit == 0
    ensures Contents(AddRead(t, Restored(it, now), now)) ==
            if Expired(it.obj, now) then Contents(t) else Contents(t)[it.key := Reborn(it.obj, now)]
  {
    hide Wf, Contents, Add, Restored;
    RestoredIs(it, now);
    if !Expired(it.obj, now) { AddLaw(t, it.key, Restored(it, now).value.obj, now); }
  }

  lemma BackNone(now: nat)
    ensures Back(ToMap([]), now) == map[]
  {}

  lemma BackFirst(items: seq<Item>, now: nat)
    requires items != [] && DistinctKeys(items)
    ensures var later := Back(ToMap(items[1..]), now); var it := items[0];
      && it.key !in later
      && Back(ToMap(items), now) == if Expired(it.obj, now) then later else later[it.key := Reborn(it.obj, now)]
  {
    hide ToMap, Expired, Reborn;
    ToMapFirst(items);
  }

  lemma RestoredIs(it: Item, now: nat)
    ensures Restored(it, now) == if Expired(it.obj, now) then None else Some(Item(it.key, Reborn(it.obj, now)))
  {}

  lemma ToMapNone()
    ensures ToMap([]) == map[]
  {}

  lemma ToMapFirst(items: seq<Item>)
    requires items != [] && DistinctKeys(items)
    ensures ToMap(items) == ToMap(items[1..])[items[0].key := items[0].obj] && items[0].key !in ToMap(items[1..])
  {
    hide ToMap;
    forall k ensures k in ToMap(items) <==> k in ToMap(items[1..])[items[0].key := items[0].obj] {
      FirstAt(items, k);
    }
    forall k | k in ToMap(items) ensures ToMap(items)[k] == ToMap(items[1..])[items[0].key := items[0].obj][k] {
      FirstAt(items, k);
    }
    FirstAt(items, items[0].key);
  }

  lemma FirstAt(items: seq<Item>, k: string)
    requires items != [] && DistinctKeys(items)
    ensures k in ToMap(items) <==> k == items[0].key || k in ToMap(items[1..])
    ensures k in ToMap(items) ==> ToMap(items)[k] == if k == items[0].key then items[0].obj else ToMap(items[1..])[k]
    ensures items[0].key !in ToMap(items[1..])
  {
    hide ToMap;
    ToMapHas(items, k);
    ToMapHas(items[1..], k);
    ToMapHas(items[1..], items[0].key);
  }

  /** A loaded object: same value and expiry, its size recomputed, accessed at load time. */
  function Reborn(o: Obj, now: nat): Obj {
    Obj(o.data, o.expire, |o.data| + 1, now)
  }

  /** The unexpired part of a map, as a load at `now` brings it back. */
  ghost function Back(m: map<string, Obj>, now: nat): map<string, Obj> {
    map k | k in m && !Expired(m[k], now) :: Reborn(m[k], now)
  }

  lemma ReadHeader(used: nat, body: string, t: Table, now: nat)
    requires Wf(t) && used < TWO64
    ensures Load(t, Readable(Header(used) + body), now) == LoadBody(t, body, used, now)
  {
    hide Wf, LE, UnLE, Pow256, ReadInt, LoadBody;
    Widths();
    var s1 := LE(RDB_VERSION, 4) + (LE(used, 8) + body);
    var s := Header(used) + body;
    assert s == RDB_MAGIC + s1;
    assert s[..4] == RDB_MAGIC && s[4..] == s1;
    ReadIntBack(RDB_VERSION, 4, LE(used, 8) + body);
    ReadIntBack(used, 8, body);
  }

  ghost predicate TableStorable(t: Table) {
    t.used < TWO64 && AllStorable(Flatten(t.rows))
  }

  /** Saving at t1 and loading into an empty table at t2 restores exactly the entries
      unexpired at both times, each with its value and expiry; the load reports success if
      and only if nothing had expired by t1. */
  lemma SnapshotRoundTrip(t: Table, empty: Table, t1: nat, t2: nat)
    requires Wf(t) && TableStorable(t) && Wf(empty) && empty.limit == 0 && Contents(empty) == map[]
    ensures t.used >= 0
    ensures var r := Load(empty, Readable(Image(t, t1)), t2);
      && Contents(r.table) == Back(LiveOf(Contents(t), t1), t2)
      && (r.ok <==> forall k :: k in Contents(t) ==> !Expired(Contents(t)[k], t1))
  {
    hide Wf, Contents, Flatten, Fresh, Records, Load, LoadBody, Header, ToMap, Restore;
    UsedIs(t);
    var items := Flatten(t.rows);
    var live := Fresh(items, t1);
    FlattenContents(t);
    FreshHas(items, t1);
    FreshStorable(items, t1);
    FreshCount(items, t1);
    ToMapFresh(items, t1);
    ReadHeader(t.used, Records(live) + [Byte(RDB_END)], empty, t2);
    LoadAll(empty, live, t.used, t2);
    RestoreContents(empty, live, t2);
    assert map[] + Back(ToMap(live), t2) == Back(ToMap(live), t2);
  }

  lemma UsedIs(t: Table)
    requires Wf(t)
    ensures t.used == |Flatten(t.rows)| && t.used >= 0
  {}

  lemma FreshStorable(items: seq<Item>, now: nat)
    requires AllStorable(items) && DistinctKeys(items)
    ensures AllStorable(Fresh(items, now))
  {
    hide Fresh, Storable;
    FreshHas(items, now);
    forall i | 0 <= i < |Fresh(items, now)| ensures Storable(Fresh(items, now)[i]) {
      assert Fresh(items, now)[i] in Fresh(items, now);
    }
  }

  lemma {:induction false} FreshCount(items: seq<Item>, now: nat)
    requires DistinctKeys(items)
    ensures |Fresh(items, now)| <= |items|
    ensures |Fresh(items, now)| == |items| <==> forall k :: k in ToMap(items) ==> !Expired(ToMap(items)[k], now)
  {
    if items != [] {
      var n := |items| - 1;
      FreshCount(items[..n], now);
      FreshHas(items[..n], now);
      ToMapHas(items[..n], items[n].key);
      assert items[n].key in ToMap(items) && ToMap(items)[items[n].key] == items[n].obj;
      assert forall k :: k in ToMap(items[..n]) ==> k in ToMap(items) && ToMap(items)[k] == ToMap(items[..n])[k];
    }
  }

  // ---------- truncated files ----------

  lemma TooShortForHeader(t: Table, s: string, now: nat)
    requires Wf(t) && |s| < 16
    ensures Load(t, Readable(s), now) == Loaded(false, t)
  {}

  /** Cutting the body anywhere makes the load fail after an initial run of the records. */
  lemma {:induction false} BodyTruncated(t: Table, items: seq<Item>, part: string, missing: string, now: nat)
    requires Wf(t) && AllStorable(items)
    requires part + missing == Records(items) + [Byte(RDB_END)] && missing != ""
    ensures var r := LoadBody(t, part, |items|, now);
      !r.ok && exists m: nat :: m <= |items| && r.table == Restore(t, items[..m], now)
    decreases |items|
  {
    hide Wf, LoadBody, ReadRecord, Record, Restored, AddRead;
    assert items[..0] == [] && Restore(t, [], now) == t;
    if items == [] {
      assert part == "" by { assert |part + missing| == 1; }
      BodyEnd(t, now);
    } else {
      var first, rest := Record(items[0]), Records(items[1..]) + [Byte(RDB_END)];
      assert part + missing == first + rest;
      BodyStep(t, part, |items|, now);
      if |part| < |first| {
        assert part + first[|part|..] == first by { assert (part + missing)[..|part|] == (first + rest)[..|part|]; }
        TruncatedRecord(items[0], part, first[|part|..], now);
      } else {
        var part' := part[|first|..];
        assert part == first + part' by { assert (part + missing)[..|first|] == (first + rest)[..|first|]; }
        assert part' + missing == rest by { assert (part + missing)[|first|..] == (first + rest)[|first|..]; }
        RecordReadBack(items[0], part', now);
        var t1 := AddRead(t, Restored(items[0], now), now);
        BodyTruncated(t1, items[1..], part', missing, now);
        var m: nat :| m <= |items[1..]| && LoadBody(t1, part', |items[1..]|, now).table == Restore(t1, items[1..][..m], now);
        assert items[..m + 1][1..] == items[1..][..m] && items[..m + 1][0] == items[0];
        assert LoadBody(t, part, |items|, now).table == Restore(t, items[..m + 1], now);
      }
    }
  }

  lemma HeaderLength(used: nat)
    ensures |Header(used)| == 16
  {}

  lemma FreshAll(items: seq<Item>, now: nat)
    requires DistinctKeys(items) && |Fresh(items, now)| == |items|
    ensures Fresh(items, now) == items
  {
    if items != [] {
      FreshHas(items[..|items| - 1], now);
      FreshAll(items[..|items| - 1], now);
    }
  }

  /** No strict prefix of a snapshot without expired entries loads: the load fails, and
      the table then holds the unexpired entries among some initial run of the records. */
  lemma TruncatedSnapshot(t: Table, empty: Table, part: string, missing: string, t1: nat, t2: nat)
    requires Wf(t) && TableStorable(t) && Wf(empty) && empty.limit == 0 && Contents(empty) == map[]
    requires forall k :: k in Contents(t) ==> !Expired(Contents(t)[k], t1)
    requires t.used >= 0 && part + missing == Image(t, t1) && missing != ""
    ensures var r := Load(empty, Readable(part), t2);
      && !r.ok
      && exists m: nat :: m <= |Flatten(t.rows)| && Contents(r.table) == Back(ToMap(Flatten(t.rows)[..m]), t2)
  {
    hide Wf, Contents, Flatten, Fresh, Records, Load, LoadBody, Header, ToMap, Restore;
    UsedIs(t);
    var items := Flatten(t.rows);
    FlattenContents(t);
    FreshCount(items, t1);
    FreshAll(items, t1);
    HeaderLength(t.used);
    var head, body := Header(t.used), Records(items) + [Byte(RDB_END)];
    assert part + missing == head + body;
    if |part| < 16 {
      TooShortForHeader(empty, part, t2);
      assert items[..0] == [];
      ToMapNone();
      assert Contents(empty) == Back(ToMap(items[..0]), t2);
    } else {
      var part' := part[16..];
      assert part == head + part' by { assert (part + missing)[..16] == (head + body)[..16]; }
      assert part' + missing == body by { assert (part + missing)[16..] == (head + body)[16..]; }
      ReadHeader(t.used, part', empty, t2);
      BodyTruncated(empty, items, part', missing, t2);
      var m: nat :| m <= |items| && LoadBody(empty, part', |items|, t2).table == Restore(empty, items[..m], t2);
      RestoreContents(empty, items[..m], t2);
      assert map[] + Back(ToMap(items[..m]), t2) == Back(ToMap(items[..m]), t2);
    }
  }
}
