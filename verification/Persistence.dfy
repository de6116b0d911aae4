/** Saving and loading the RDB file (src/persistence.c): the loops over the linked table,
    the temporary file and its rename, and the cursor of the reader. */
module Persistence {
  import opened Text
  import opened HashTable
  import opened TableLaws
  import opened Eviction
  import opened DictHeap
  import opened Snapshot

  /** A disk with one buffered stream open for writing.  The fate of each system call is a
      field; `history` records every state the files go through. */
  class Disk {
    var files: map<string, string>
    var pending: string
    var canOpen: bool
    var writesLeft: nat
    var flushable: nat
    var canRename: bool
    ghost var history: seq<map<string, string>>

    constructor (files: map<string, string>, canOpen: bool, writesLeft: nat, flushable: nat, canRename: bool)
      ensures this.files == files && history == [files]
      ensures this.canOpen == canOpen && this.writesLeft == writesLeft
      ensures this.flushable == flushable && this.canRename == canRename
    {
      this.files, pending, history := files, "", [files];
      this.canOpen, this.writesLeft, this.flushable, this.canRename := canOpen, writesLeft, flushable, canRename;
    }

    /** `fopen(name, "wb")`. */
    method OpenForWriting(name: string) returns (ok: bool)
      modifies this`files, this`pending, this`history
      ensures ok == canOpen && pending == ""
      ensures files == if ok then old(files)[name := ""] else old(files)
      ensures history == old(history) + [files]
    {
      ok := canOpen;
      if ok { files := files[name := ""]; }
      pending, history := "", history + [files];
    }

    /** `fwrite` into the stream's buffer. */
    method FWrite(bytes: string) returns (ok: bool)
      modifies this`pending, this`writesLeft
      ensures ok <==> old(writesLeft) > 0
      ensures ok ==> pending == old(pending) + bytes && writesLeft == old(writesLeft) - 1
      ensures !ok ==> pending == old(pending) && writesLeft == 0
    {
      ok := writesLeft > 0;
      if ok { pending, writesLeft := pending + bytes, writesLeft - 1; }
    }

    /** `fclose`: of the buffered bytes at most `flushable` reach the file. */
    method Close(name: string)
      requires name in files
      modifies this`files, this`pending, this`history
      ensures files == old(files)[name := old(files)[name] + Flushed(old(pending), flushable)]
      ensures history == old(history) + [files]
    {
      files := files[name := files[name] + Flushed(pending, flushable)];
      pending, history := "", history + [files];
    }

    /** `rename`, atomic. */
    method Rename(from: string, to: string) returns (ok: bool)
      requires from in files && from != to
      modifies this`files, this`history
      ensures ok == canRename
      ensures files == if ok then (old(files) - {from})[to := old(files)[from]] else old(files)
      ensures history == old(history) + [files]
    {
      ok := canRename;
      if ok { files := (files - {from})[to := files[from]]; }
      history := history + [files];
    }

    /** `unlink`. */
    method Unlink(name: string)
      modifies this`files, this`history
      ensures files == old(files) - {name} && history == old(history) + [files]
    {
      files := files - {name};
      history := history + [files];
    }
  }

  function Flushed(bytes: string, n: nat): string {
    if n < |bytes| then bytes[..n] else bytes
  }

  // ---------- how many writes a save takes ----------

  /** The length, and the bytes if there are any. */
  function StringWrites(s: string): nat { if s == "" then 1 else 2 }

  /** Key, type, expiry flag, expiry if there is one, command, value. */
  function RecordWrites(it: Item): nat {
    StringWrites(it.key) + (if it.obj.expire == 0 then 3 else 4) + StringWrites(it.obj.data)
  }

  function RecordsWrites(items: seq<Item>): nat {
    if items == [] then 0 else RecordWrites(items[0]) + RecordsWrites(items[1..])
  }

  /** Magic, version and count, the records of the unexpired entries, the end marker. */
  function Writes(t: Table, now: nat): nat {
    4 + RecordsWrites(Fresh(Flatten(t.rows), now))
  }

  lemma {:induction false} RecordsWritesAppend(a: seq<Item>, b: seq<Item>)
    ensures RecordsWrites(a + b) == RecordsWrites(a) + RecordsWrites(b)
  {
    hide RecordWrites;
    if a == [] {
      assert a + b == b;
    } else {
      assert (a + b)[1..] == a[1..] + b;
      RecordsWritesAppend(a[1..], b);
    }
  }

  lemma WritesMore(items: seq<Item>, it: Item)
    ensures RecordsWrites(items + [it]) == RecordsWrites(items) + RecordWrites(it)
  {
    hide RecordsWrites, RecordWrites;
    RecordsWritesAppend(items, [it]);
    WritesOne(it);
  }

  lemma FreshMore(items: seq<Item>, it: Item, now: nat)
    ensures Fresh(items + [it], now) == if Expired(it.obj, now) then Fresh(items, now) else Fresh(items, now) + [it]
  {
    assert (items + [it])[..|items|] == items;
  }

  lemma WritesOne(it: Item)
    ensures RecordsWrites([it]) == RecordWrites(it)
  {
    assert RecordsWrites([]) == 0;
  }

  /** What is written first is no more than all of it. */
  lemma WritesPart(first: seq<Item>, more: seq<Item>, now: nat)
    ensures RecordsWrites(Fresh(first, now)) <= RecordsWrites(Fresh(first + more, now))
  {
    hide RecordsWrites, Fresh;
    FreshAppend(first, more, now);
    RecordsWritesAppend(Fresh(first, now), Fresh(more, now));
  }

  lemma BucketsLeft(rows: seq<seq<Item>>, n: nat, now: nat)
    requires n <= |rows|
    ensures RecordsWrites(Fresh(Flatten(rows[..n]), now)) <= RecordsWrites(Fresh(Flatten(rows), now))
  {
    hide RecordsWrites, Fresh, Flatten;
    assert rows[..n] + rows[n..] == rows;
    FlattenAppend(rows[..n], rows[n..]);
    WritesPart(Flatten(rows[..n]), Flatten(rows[n..]), now);
  }

  lemma WritesNone(now: nat)
    ensures RecordsWrites(Fresh([], now)) == 0
  {}

  // ---------- saving ----------

  /** `n` writes were made: all of them if as many are left, else the stream has failed. */
  twostate predicate Wrote(disk: Disk, ok: bool, n: nat, bytes: string)
    reads disk
  {
    && (ok <==> old(disk.writesLeft) >= n)
    && (ok ==> disk.writesLeft == old(disk.writesLeft) - n && disk.pending == old(disk.pending) + bytes)
  }

  method WriteString(disk: Disk, s: string) returns (ok: bool)
    modifies disk`pending, disk`writesLeft
    ensures Wrote(disk, ok, StringWrites(s), SavedString(s))
  {
    hide LE;
    ok := disk.FWrite(LE(|s|, 8));
    if !ok { return; }
    if |s| > 0 {
      ok := disk.FWrite(s);
    }
  }

  method WriteRecord(disk: Disk, key: string, o: Obj) returns (ok: bool)
    modifies disk`pending, disk`writesLeft
    ensures Wrote(disk, ok, RecordWrites(Item(key, o)), Record(Item(key, o)))
  {
    hide LE, SavedString;
    ghost var start := disk.pending;
    ok := WriteString(disk, key);
    if !ok { return; }
    ok := disk.FWrite(LE(CC_STRING, 4));
    if !ok { return; }
    ok := disk.FWrite([Byte(if o.expire != 0 then 1 else 0)]);
    if !ok { return; }
    if o.expire != 0 {
      ok := disk.FWrite(LE(o.expire, 8));
      if !ok { return; }
    }
    assert disk.pending == start + SavedString(key) + LE(CC_STRING, 4) + SavedExpiry(o.expire);
    ok := disk.FWrite([Byte(RDB_SET)]);
    if !ok { return; }
    ok := WriteString(disk, o.data);
  }

  lemma RecordsOne(it: Item)
    ensures Records([it]) == Record(it)
  {
    assert Records([]) == "";
  }

  lemma RecordsNext(items: seq<Item>, it: Item, now: nat)
    ensures Records(Fresh(items + [it], now)) ==
            Records(Fresh(items, now)) + if Expired(it.obj, now) then "" else Record(it)
  {
    hide Records, Record;
    assert (items + [it])[..|items|] == items;
    if !Expired(it.obj, now) {
      RecordsAppend(Fresh(items, now), [it]);
      RecordsOne(it);
    } else {
      assert Fresh(items, now) + [] == Fresh(items, now);
    }
  }

  lemma {:induction false} RecordsAppend(a: seq<Item>, b: seq<Item>)
    ensures Records(a + b) == Records(a) + Records(b)
  {
    hide Record;
    if a == [] {
      assert a + b == b;
    } else {
      assert (a + b)[1..] == a[1..] + b;
      RecordsAppend(a[1..], b);
    }
  }

  lemma RecordsNone(now: nat)
    ensures Records(Fresh([], now)) == ""
  {}

  /** The records of one bucket. */
  method WriteChain(d: Dict, disk: Disk, i: nat, now: nat) returns (ok: bool)
    requires d.Valid() && i < d.size
    modifies disk`pending, disk`writesLeft
    ensures Wrote(disk, ok, RecordsWrites(Fresh(d.rows[i], now)), Records(Fresh(d.rows[i], now)))
  {
    hide Wf, Linked, Records, Fresh, Record, RecordsWrites, RecordWrites;
    ghost var start, left, row := disk.pending, disk.writesLeft, d.rows[i];
    var entry, prev := d.table[i], null;
    ghost var j := 0;
    d.RowLength(i);
    d.HeadOf(i);
    RecordsNone(now);
    WritesNone(now);
    assert row[..0] == [];
    ok := true;
    while entry != null
      invariant d.At(i, j, prev, entry) && j <= |row| && ok
      invariant disk.pending == start + Records(Fresh(row[..j], now))
      invariant disk.writesLeft == left - RecordsWrites(Fresh(row[..j], now))
      decreases |row| - j
    {
      d.EntryOf(i, j);
      d.NextOf(i, j);
      RecordsNext(row[..j], row[j], now);
      FreshMore(row[..j], row[j], now);
      WritesMore(Fresh(row[..j], now), row[j]);
      WritesPart(row[..j + 1], row[j + 1..], now);
      assert row[..j + 1] + row[j + 1..] == row;
      assert row[..j + 1] == row[..j] + [row[j]];
      if !(entry.val.expire != 0 && entry.val.expire < now) {
        ok := WriteRecord(disk, entry.key, entry.val);
        if !ok { return; }
      }
      prev, entry, j := entry, entry.next, j + 1;
    }
    assert row[..j] == row;
  }

  /** Everything `save_rdb_to_file` writes. */
  method WriteImage(d: Dict, disk: Disk, now: nat) returns (ok: bool)
    requires d.Valid() && d.used >= 0 && disk.pending == ""
    modifies disk`pending, disk`writesLeft
    ensures Wrote(disk, ok, Writes(d.Model(), now), Image(d.Model(), now))
  {
    hide Wf, Linked, Records, Fresh, Flatten, LE, RecordsWrites;
    ghost var left := disk.writesLeft;
    ok := disk.FWrite(RDB_MAGIC);
    if !ok { return; }
    ok := disk.FWrite(LE(RDB_VERSION, 4));
    if !ok { return; }
    ok := disk.FWrite(LE(d.used, 8));
    if !ok { return; }
    ghost var head := Header(d.used);
    assert disk.pending == head;
    FlattenNone(d.rows);
    RecordsNone(now);
    WritesNone(now);
    var i := 0;
    while i < d.size
      invariant i <= d.size
      invariant disk.pending == head + Records(Fresh(Flatten(d.rows[..i]), now))
      invariant disk.writesLeft == left - 3 - RecordsWrites(Fresh(Flatten(d.rows[..i]), now))
    {
      FlattenNext(d.rows, i);
      FreshAppend(Flatten(d.rows[..i]), d.rows[i], now);
      RecordsAppend(Fresh(Flatten(d.rows[..i]), now), Fresh(d.rows[i], now));
      RecordsWritesAppend(Fresh(Flatten(d.rows[..i]), now), Fresh(d.rows[i], now));
      BucketsLeft(d.rows, i + 1, now);
      ok := WriteChain(d, disk, i, now);
      if !ok { return; }
      i := i + 1;
    }
    assert d.rows[..d.size] == d.rows;
    ok := disk.FWrite([Byte(RDB_END)]);
  }

  /** The files under every name but the temporary one are as before. */
  ghost predicate Untouched(state: map<string, string>, before: map<string, string>, tmp: string) {
    state - {tmp} == before - {tmp}
  }

  function TempName(filename: string): string { filename + ".tmp" }

  lemma SameUntouched(before: map<string, string>, tmp: string)
    ensures Untouched(before, before, tmp)
  {}

  lemma WriteTouchesTemp(state: map<string, string>, before: map<string, string>, tmp: string, content: string)
    requires Untouched(state, before, tmp)
    ensures Untouched(state[tmp := content], before, tmp)
  {
    assert state[tmp := content] - {tmp} == state - {tmp};
  }

  lemma UnlinkRestores(state: map<string, string>, before: map<string, string>, tmp: string)
    requires Untouched(state, before, tmp)
    ensures state - {tmp} == before - {tmp} && Untouched(state - {tmp}, before, tmp)
  {
    assert state - {tmp} - {tmp} == state - {tmp};
  }

  lemma TempReplaced(before: map<string, string>, tmp: string, filename: string, content: string)
    ensures before[tmp := ""][tmp := content] == before[tmp := content]
    ensures before[tmp := content] - {tmp} == before - {tmp}
  {}

  lemma SameElsewhere(state: map<string, string>, before: map<string, string>, tmp: string, name: string)
    requires Untouched(state, before, tmp) && name != tmp
    ensures FileAt(state, name) == FileAt(before, name)
  {
    assert name in state <==> name in state - {tmp};
    assert name in before <==> name in before - {tmp};
    if name in state { assert state[name] == (state - {tmp})[name] == (before - {tmp})[name]; }
  }

  lemma TempDiffers(filename: string)
    ensures TempName(filename) != filename
  {
    assert |TempName(filename)| != |filename|;
  }

  /** What reaches `dump.rdb` when the save reports success. */
  function Committed(t: Table, now: nat, flushable: nat): string
    requires t.used >= 0
  {
    Flushed(Image(t, now), flushable)
  }

  /** The files after a save: as before if the temporary file cannot be opened; without it
      if a write failed; with it if only the rename failed; else renamed over the target. */
  function Saved(files: map<string, string>, filename: string, image: string, opens: bool, wrote: bool, renames: bool):
    map<string, string>
  {
    if !opens then files
    else if !wrote then files - {TempName(filename)}
    else if !renames then files[TempName(filename) := image]
    else (files - {TempName(filename)})[filename := image]
  }

  /** `save_rdb_to_file`: write the temporary file, then rename it over the old one.  It
      succeeds if and only if the file opens, there are writes enough and the rename does.
      In every state on the way, other files are untouched and the target holds either its
      old content or, after the rename, everything that was flushed.  `fclose` is not
      checked, so that is the whole image if and only if the last flush was complete. */
  method Save(d: Dict, disk: Disk, filename: string, now: nat) returns (ok: bool)
    requires d.Valid()
    modifies disk
    ensures d.used >= 0
    ensures ok <==> old(disk.canOpen) && old(disk.writesLeft) >= Writes(d.Model(), now) && old(disk.canRename)
    ensures disk.files == Saved(old(disk.files), filename, Committed(d.Model(), now, old(disk.flushable)),
                                old(disk.canOpen), old(disk.writesLeft) >= Writes(d.Model(), now), old(disk.canRename))
    ensures old(disk.history) <= disk.history
    ensures forall i :: old(|disk.history|) <= i < |disk.history| ==>
      || Untouched(disk.history[i], old(disk.files), TempName(filename))
      || disk.history[i] == (old(disk.files) - {TempName(filename)})[filename := Committed(d.Model(), now, old(disk.flushable))]
    ensures ok ==> filename in disk.files
    ensures ok ==> (disk.files[filename] == Image(d.Model(), now) <==> old(disk.flushable) >= |Image(d.Model(), now)|)
    ensures !ok ==> Untouched(disk.files, old(disk.files), TempName(filename))
  {
    hide Wf, Image, Flushed, TempName, Untouched, Writes, Dict.Shape;
    ghost var before := disk.files;
    UsedIs(d.Model());
    CommittedWhole(d.Model(), now, disk.flushable);
    var tmp := TempName(filename);
    SameUntouched(before, tmp);
    WriteTouchesTemp(before, before, tmp, "");
    TempDiffers(filename);
    var isOpen := disk.OpenForWriting(tmp);
    if !isOpen { return false; }
    var result := WriteImage(d, disk, now);
    WriteTouchesTemp(disk.files, before, tmp, disk.files[tmp] + Flushed(disk.pending, disk.flushable));
    assert "" + Image(d.Model(), now) == Image(d.Model(), now);
    TempReplaced(before, tmp, filename, Flushed(disk.pending, disk.flushable));
    ghost var content := Flushed(disk.pending, disk.flushable);
    assert "" + content == content;
    disk.Close(tmp);
    UnlinkRestores(disk.files, before, tmp);
    if result {
      ok := disk.Rename(tmp, filename);
    } else {
      disk.Unlink(tmp);
      ok := false;
    }
  }

  lemma CommittedWhole(t: Table, now: nat, flushable: nat)
    requires t.used >= 0
    ensures Committed(t, now, flushable) == Image(t, now) <==> flushable >= |Image(t, now)|
  {
    hide Image;
    var image := Image(t, now);
    if flushable < |image| { assert |Flushed(image, flushable)| == flushable; }
  }

  // ---------- loading ----------

  /** The cursor stands where a read of the rest left it. */
  ghost predicate ReadTo<T>(got: Got<T>, s: string, ok: bool, v: T, pos: nat) {
    match got
    case Short => !ok
    case Got(value, rest) => ok && v == value && pos <= |s| && s[pos..] == rest
  }

  method FRead(s: string, pos: nat, n: nat) returns (ok: bool, v: string, pos': nat)
    requires pos <= |s|
    ensures ReadTo(ReadBytes(s[pos..], n), s, ok, v, pos')
  {
    if |s| - pos < n { return false, "", pos; }
    assert s[pos..][n..] == s[pos + n..] && s[pos..][..n] == s[pos..pos + n];
    return true, s[pos..pos + n], pos + n;
  }

  method FReadInt(s: string, pos: nat, width: nat) returns (ok: bool, v: nat, pos': nat)
    requires pos <= |s|
    ensures ReadTo(ReadInt(s[pos..], width), s, ok, v, pos')
  {
    var bytes;
    ok, bytes, pos' := FRead(s, pos, width);
    v := UnLE(bytes);
  }

  /** `rdb_load_string`. */
  method LoadString(s: string, pos: nat) returns (ok: bool, v: string, pos': nat)
    requires pos <= |s|
    ensures ReadTo(ReadString(s[pos..]), s, ok, v, pos')
  {
    hide ReadInt, ReadBytes;
    var n;
    ok, n, pos' := FReadInt(s, pos, 8);
    if !ok { return false, "", pos; }
    ok, v, pos' := FRead(s, pos', n);
  }

  method LoadExpiry(s: string, pos: nat) returns (ok: bool, e: Option<nat>, pos': nat)
    requires pos <= |s|
    ensures ReadTo(ReadExpiry(s[pos..]), s, ok, e, pos')
  {
    hide ReadInt;
    var has, expire;
    e := None;
    ok, has, pos' := FReadInt(s, pos, 1);
    if !ok || has == 0 { return; }
    ok, expire, pos' := FReadInt(s, pos', 8);
    e := Some(expire);
  }

  method LoadSkipped(s: string, pos: nat) returns (ok: bool, pos': nat)
    requires pos <= |s|
    ensures ReadTo(SkipValue(s[pos..]), s, ok, (), pos')
  {
    hide ReadInt, ReadString;
    var cmd;
    ok, cmd, pos' := FReadInt(s, pos, 1);
    if ok && cmd == RDB_SET {
      var skipped;
      ok, skipped, pos' := LoadString(s, pos');
    }
  }

  method LoadValue(s: string, pos: nat) returns (ok: bool, v: string, pos': nat)
    requires pos <= |s|
    ensures ReadTo(ReadValue(s[pos..]), s, ok, v, pos')
  {
    hide ReadInt, ReadString;
    var cmd;
    v := "";
    ok, cmd, pos' := FReadInt(s, pos, 1);
    if !ok { return; }
    if cmd != RDB_SET { return false, "", pos; }
    ok, v, pos' := LoadString(s, pos');
  }

  /** One turn of the loading loop, up to the call of `dict_add`. */
  method LoadRecord(s: string, pos: nat, now: nat) returns (ok: bool, it: Option<Item>, pos': nat)
    requires pos <= |s|
    ensures ReadTo(ReadRecord(s[pos..], now), s, ok, it, pos')
  {
    hide ReadInt, ReadString, ReadExpiry, ReadValue, SkipValue, CStr;
    it := None;
    var key, kind, e, v;
    ok, key, pos' := LoadString(s, pos);
    if !ok { return; }
    ok, kind, pos' := FReadInt(s, pos', 4);
    if !ok { return; }
    ok, e, pos' := LoadExpiry(s, pos');
    if !ok { return; }
    if e.Some? && e.value < now {
      ok, pos' := LoadSkipped(s, pos');
      return;
    }
    ok, v, pos' := LoadValue(s, pos');
    it := Some(Item(CStr(key), Obj(CStr(v), if e.Some? then e.value else 0, |v| + 1, now)));
  }

  /** The loading loop and the check for the end marker. */
  method LoadEntries(d: Dict, s: string, start: nat, count: nat, now: nat) returns (ok: bool)
    requires d.Valid() && start <= |s|
    modifies d, d.table, d.repr
    ensures d.Valid() && (d.table == old(d.table) || fresh(d.table)) && fresh(d.repr - old(d.repr))
    ensures Loaded(ok, d.Model()) == LoadBody(old(d.Model()), s[start..], count, now)
  {
    hide Wf, LoadBody, ReadRecord, AddRead, ReadInt, Dict.Shape;
    ghost var was := d.Model();
    var pos: nat, i: nat := start, 0;
    while i < count
      invariant i <= count && pos <= |s| && d.Valid()
      invariant (d.table == old(d.table) || fresh(d.table)) && fresh(d.repr - old(d.repr))
      invariant LoadBody(was, s[start..], count, now) == LoadBody(d.Model(), s[pos..], count - i, now)
    {
      BodyStep(d.Model(), s[pos..], count - i, now);
      var it, next;
      ok, it, next := LoadRecord(s, pos, now);
      if !ok { return; }
      AddReadIs(d.Model(), it, now);
      if it.Some? {
        d.DictAdd(it.value.key, it.value.obj, now);
      }
      pos, i := next, i + 1;
    }
    BodyLast(d.Model(), s[pos..], now);
    var marker, end;
    ok, marker, end := FReadInt(s, pos, 1);
    ok := ok && marker == RDB_END;
  }

  lemma BodyLast(t: Table, s: string, now: nat)
    requires Wf(t)
    ensures LoadBody(t, s, 0, now) ==
      if ReadInt(s, 1).Short? then Loaded(false, t) else Loaded(ReadInt(s, 1).value == RDB_END, t)
  {}

  lemma AddReadIs(t: Table, it: Option<Item>, now: nat)
    requires Wf(t)
    ensures AddRead(t, it, now) == if it.Some? then Add(t, it.value.key, it.value.obj, now) else t
  {}

  /** `load_rdb_from_file`. */
  method LoadFile(d: Dict, file: File, now: nat) returns (ok: bool)
    requires d.Valid()
    modifies d, d.table, d.repr
    ensures d.Valid() && (d.table == old(d.table) || fresh(d.table)) && fresh(d.repr - old(d.repr))
    ensures Loaded(ok, d.Model()) == Load(old(d.Model()), file, now)
  {
    hide Wf, LoadBody, ReadInt, ReadBytes;
    if file.Missing? { return true; }
    if file.Unreadable? { return false; }
    var s := file.bytes;
    assert s[0..] == s;
    var pos, magic, version, count;
    ok, magic, pos := FRead(s, 0, 4);
    if !ok || magic != RDB_MAGIC { return false; }
    ok, version, pos := FReadInt(s, pos, 4);
    if !ok || version != RDB_VERSION { return false; }
    ok, count, pos := FReadInt(s, pos, 8);
    if !ok { return false; }
    ok := LoadEntries(d, s, pos, count, now);
  }
  // ---------- saving, then starting again ----------

  function FileAt(files: map<string, string>, name: string): File {
    if name in files then Readable(files[name]) else Missing
  }

  /** A save at t1 and a start of the server at t2 that finds the file.  If the save
      succeeded and was flushed whole, the new table holds exactly the entries unexpired at
      both times, and loading reports success if and only if nothing had expired at t1.  If
      it succeeded but was not, and nothing had expired, loading fails after some initial
      run of the records.  If it did not succeed, the load is that of the old file. */
  method SaveAndRestart(d: Dict, disk: Disk, filename: string, t1: nat, initialSize: nat, t2: nat)
    returns (next: Dict, saved: bool, loaded: bool)
    requires d.Valid() && TableStorable(d.Model())
    modifies disk
    ensures next.Valid() && fresh(next) && d.used >= 0
    ensures saved <==> old(disk.canOpen) && old(disk.writesLeft) >= Writes(d.Model(), t1) && old(disk.canRename)
    ensures saved && old(disk.flushable) >= |Image(d.Model(), t1)| ==>
      && Contents(next.Model()) == Back(LiveOf(Contents(d.Model()), t1), t2)
      && (loaded <==> NoneStale(d.Model(), t1))
    ensures saved && old(disk.flushable) < |Image(d.Model(), t1)| && NoneStale(d.Model(), t1) ==>
      && !loaded
      && exists m: nat :: m <= |Flatten(d.rows)| && Contents(next.Model()) == Back(ToMap(Flatten(d.rows)[..m]), t2)
    ensures !saved ==> exists empty ::
      && Wf(empty) && Contents(empty) == map[] && empty.limit == 0
      && Loaded(loaded, next.Model()) == Load(empty, FileAt(old(disk.files), filename), t2)
  {
    hide Wf, Contents, Flatten, Image, Load, Back, ToMap, TableStorable, LiveOf, Writes, TempName, Dict.Shape, Untouched;
    ghost var files, flushable, t := disk.files, disk.flushable, d.Model();
    saved := Save(d, disk, filename, t1);
    next := new Dict(initialSize);
    ghost var empty := next.Model();
    loaded := LoadFile(next, FileAt(disk.files, filename), t2);
    TempDiffers(filename);
    if !saved {
      SameElsewhere(disk.files, files, TempName(filename), filename);
    } else if flushable >= |Image(t, t1)| {
      SnapshotRoundTrip(t, empty, t1, t2);
    } else if NoneStale(t, t1) {
      ghost var image := Image(t, t1);
      assert disk.files[filename] == image[..flushable];
      assert image[..flushable] + image[flushable..] == image;
      TruncatedSnapshot(t, empty, image[..flushable], image[flushable..], t1, t2);
    }
  }

  ghost predicate NoneStale(t: Table, now: nat)
    requires |t.rows| > 0
  {
    forall k :: k in Contents(t) ==> !Expired(Contents(t)[k], now)
  }
}
