/** What the operations of the hash table do to the map it stands for, and to its
    invariant: every key once, in its bucket; exact counters; never more entries than
    buckets. */
module TableLaws {
  import opened Text
  import opened HashTable

  // ---------- single-row operations ----------

  lemma DeleteLaw(t: Table, key: string)
    requires Wf(t)
    ensures Wf(Delete(t, key)) && |Delete(t, key).rows| == |t.rows|
    ensures Contents(Delete(t, key)) == Contents(t) - {key}
    ensures Delete(t, key).used == t.used - if key in Contents(t) then 1 else 0
    ensures Delete(t, key).memory == t.memory - if key in Contents(t) then Contents(t)[key].size else 0
  {
    hide Wf, Delete, Lookup, Contents;
    DeleteCounts(t, key);
    LookupContents(t, key);
    forall k ensures Lookup(Delete(t, key), k) == if k in Contents(t) - {key} then Some((Contents(t) - {key})[k]) else None {
      LookupContents(t, k);
      DeleteLookup(t, key, k);
    }
    SameLookups(Delete(t, key), Contents(t) - {key});
  }

  lemma DeleteCounts(t: Table, key: string)
    requires Wf(t)
    ensures Wf(Delete(t, key)) && |Delete(t, key).rows| == |t.rows|
    ensures Delete(t, key).used == t.used - if Lookup(t, key).Some? then 1 else 0
    ensures Delete(t, key).memory == t.memory - if Lookup(t, key).Some? then Lookup(t, key).value.size else 0
  {
    hide Flatten, Weight, Bucket, IsPow2;
    var i := Bucket(key, |t.rows|);
    var row := t.rows[i];
    var j := IndexOf(row, key);
    if j < |row| {
      WeightRemove(row, j);
      SetRowWf(t, i, RemoveAt(row, j));
      assert Delete(t, key) == SetRow(t, i, RemoveAt(row, j));
    }
  }

  lemma DeleteLookup(t: Table, key: string, k: string)
    requires Wf(t)
    ensures |Delete(t, key).rows| == |t.rows| && Lookup(Delete(t, key), k) == if k == key then None else Lookup(t, k)
  {
    hide Flatten, Weight, Bucket, IsPow2;
    var row := t.rows[Bucket(key, |t.rows|)];
    var j := IndexOf(row, key);
    if j < |row| { IndexAfterRemove(row, j, k); }
  }

  lemma IndexAfterRemove(row: seq<Item>, j: nat, k: string)
    requires j < |row| && DistinctKeys(row)
    ensures var m := IndexOf(RemoveAt(row, j), k);
      m < |row| - 1 <==> k != row[j].key && IndexOf(row, k) < |row|
    ensures var m := IndexOf(RemoveAt(row, j), k);
      m < |row| - 1 ==> RemoveAt(row, j)[m] == row[IndexOf(row, k)]
  {
    var n := IndexOf(row, k);
    if k != row[j].key {
      IndexOfIs(RemoveAt(row, j), k, if n < j then n else n - 1);
    } else {
      IndexOfIs(RemoveAt(row, j), k, |row| - 1);
    }
  }

  lemma PutLaw(t: Table, key: string, o: Obj)
    requires Wf(t) && Lookup(t, key).Some?
    ensures Wf(Put(t, key, o)) && |Put(t, key, o).rows| == |t.rows|
    ensures key in Contents(t) && Contents(Put(t, key, o)) == Contents(t)[key := o]
    ensures Put(t, key, o).used == t.used
    ensures Put(t, key, o).memory == t.memory - Contents(t)[key].size + o.size
  {
    hide Wf, Put, Lookup, Contents;
    PutCounts(t, key, o);
    LookupContents(t, key);
    forall k ensures Lookup(Put(t, key, o), k) == if k in Contents(t)[key := o] then Some(Contents(t)[key := o][k]) else None {
      LookupContents(t, k);
      PutLookup(t, key, o, k);
    }
    SameLookups(Put(t, key, o), Contents(t)[key := o]);
  }

  lemma PutCounts(t: Table, key: string, o: Obj)
    requires Wf(t) && Lookup(t, key).Some?
    ensures Wf(Put(t, key, o)) && |Put(t, key, o).rows| == |t.rows| && Put(t, key, o).used == t.used
    ensures Put(t, key, o).memory == t.memory - Lookup(t, key).value.size + o.size
  {
    hide Flatten, Weight, Bucket, IsPow2;
    var i := Bucket(key, |t.rows|);
    var row := t.rows[i];
    var j := IndexOf(row, key);
    var row' := row[j := Item(key, o)];
    WeightUpdate(row, j, Item(key, o));
    SetRowWf(t, i, row');
    assert Put(t, key, o) == SetRow(t, i, row');
  }

  lemma PutLookup(t: Table, key: string, o: Obj, k: string)
    requires |t.rows| > 0 && Lookup(t, key).Some?
    ensures |Put(t, key, o).rows| == |t.rows| && Lookup(Put(t, key, o), k) == if k == key then Some(o) else Lookup(t, k)
  {
    hide Bucket;
    var row := t.rows[Bucket(key, |t.rows|)];
    var row' := row[IndexOf(row, key) := Item(key, o)];
    IndexOfIs(row', k, IndexOf(row, k));
  }

  lemma InsertLaw(t: Table, key: string, o: Obj)
    requires Wf(t) && Lookup(t, key).None? && t.used < |t.rows|
    ensures Wf(Insert(t, key, o)) && |Insert(t, key, o).rows| == |t.rows|
    ensures key !in Contents(t) && Contents(Insert(t, key, o)) == Contents(t)[key := o]
    ensures Insert(t, key, o).used == t.used + 1
    ensures Insert(t, key, o).memory == t.memory + o.size
  {
    hide Wf, Insert, Lookup, Contents;
    InsertCounts(t, key, o);
    LookupContents(t, key);
    forall k ensures Lookup(Insert(t, key, o), k) == if k in Contents(t)[key := o] then Some(Contents(t)[key := o][k]) else None {
      LookupContents(t, k);
      InsertLookup(t, key, o, k);
    }
    SameLookups(Insert(t, key, o), Contents(t)[key := o]);
  }

  lemma InsertCounts(t: Table, key: string, o: Obj)
    requires Wf(t) && Lookup(t, key).None? && t.used < |t.rows|
    ensures Wf(Insert(t, key, o)) && |Insert(t, key, o).rows| == |t.rows|
    ensures Insert(t, key, o).used == t.used + 1 && Insert(t, key, o).memory == t.memory + o.size
  {
    hide Flatten, Weight, Bucket, IsPow2;
    var i := Bucket(key, |t.rows|);
    var row := t.rows[i];
    var row' := [Item(key, o)] + row;
    WeightPrepend(Item(key, o), row);
    SetRowWf(t, i, row');
    assert Insert(t, key, o) == SetRow(t, i, row');
  }

  lemma InsertLookup(t: Table, key: string, o: Obj, k: string)
    requires |t.rows| > 0
    ensures |Insert(t, key, o).rows| == |t.rows| && Lookup(Insert(t, key, o), k) == if k == key then Some(o) else Lookup(t, k)
  {
    hide Bucket;
    var row := t.rows[Bucket(key, |t.rows|)];
    IndexOfIs([Item(key, o)] + row, k, if k == key then 0 else 1 + IndexOf(row, k));
  }

  lemma WeightPrepend(it: Item, row: seq<Item>)
    ensures Weight([it] + row) == it.obj.size + Weight(row)
  {
    WeightAppend([it], row);
    WeightOne(it);
  }

  // ---------- the table as one list of entries ----------

  ghost function ToMap(items: seq<Item>): map<string, Obj> {
    if items == [] then map[]
    else ToMap(items[..|items| - 1])[items[|items| - 1].key := items[|items| - 1].obj]
  }

  lemma {:induction false} ToMapHas(items: seq<Item>, key: string)
    requires DistinctKeys(items)
    ensures var m := IndexOf(items, key);
      if m < |items| then key in ToMap(items) && ToMap(items)[key] == items[m].obj else key !in ToMap(items)
  {
    if items != [] {
      var n := |items| - 1;
      var m := IndexOf(items[..n], key);
      ToMapHas(items[..n], key);
      if m < n { IndexOfIs(items, key, m); }
      else if items[n].key == key { IndexOfIs(items, key, n); }
      else { IndexOfIs(items, key, n + 1); }
    }
  }

  ghost predicate PlacedIn(rows: seq<seq<Item>>, size: nat)
    requires size > 0
  {
    forall i, j :: 0 <= i < |rows| && 0 <= j < |rows[i]| ==> Bucket(rows[i][j].key, size) == i
  }

  lemma {:induction false} FlattenHas(rows: seq<seq<Item>>, size: nat)
    requires size > 0 && PlacedIn(rows, size)
    ensures forall m :: 0 <= m < |Flatten(rows)| ==>
      var i := Bucket(Flatten(rows)[m].key, size); i < |rows| && Flatten(rows)[m] in rows[i]
  {
    hide Bucket;
    if rows != [] {
      var n := |rows| - 1;
      FlattenHas(rows[..n], size);
    }
  }

  lemma {:induction false} FlattenDistinct(rows: seq<seq<Item>>, size: nat)
    requires size > 0 && PlacedIn(rows, size) && DistinctRows(rows)
    ensures DistinctKeys(Flatten(rows))
  {
    hide Bucket;
    if rows != [] {
      var n := |rows| - 1;
      FlattenDistinct(rows[..n], size);
      FlattenHas(rows[..n], size);
    }
  }

  /** The scan over all buckets meets exactly the entries the lookups find, each once. */
  lemma FlattenContents(t: Table)
    requires Wf(t)
    ensures DistinctKeys(Flatten(t.rows)) && ToMap(Flatten(t.rows)) == Contents(t)
  {
    hide Flatten, Weight, IsPow2, Bucket, ToMap;
    var items := Flatten(t.rows);
    FlattenDistinct(t.rows, |t.rows|);
    FlattenHas(t.rows, |t.rows|);
    forall k ensures Lookup(t, k) == if k in ToMap(items) then Some(ToMap(items)[k]) else None {
      ToMapHas(items, k);
      var i := Bucket(k, |t.rows|);
      var j := IndexOf(t.rows[i], k);
      if j < |t.rows[i]| {
        FlattenSplit(t.rows, i);
        var at := |Flatten(t.rows[..i])| + j;
        assert items[at] == t.rows[i][j];
        IndexOfIs(items, k, at);
      }
    }
    SameLookups(t, ToMap(items));
  }

  // ---------- resize ----------

  lemma {:induction false} EmptyFlat(size: nat)
    ensures Flatten(Empty(size)) == []
  {
    if size > 0 {
      assert Empty(size)[..size - 1] == Empty(size - 1);
      EmptyFlat(size - 1);
    }
  }

  lemma EmptyLaw(size: nat, limit: nat)
    requires IsPow2(size) && size >= 4
    ensures Wf(Table(Empty(size), 0, 0, limit)) && Contents(Table(Empty(size), 0, 0, limit)) == map[]
  {
    EmptyFlat(size);
    FlattenContents(Table(Empty(size), 0, 0, limit));
  }

  /** The table built by relinking a list of entries. */
  function Relinked(items: seq<Item>, size: nat, limit: nat): Table
    requires size > 0
  {
    Table(Relink(items, size), |items|, Weight(items), limit)
  }

  lemma {:induction false} RelinkLaw(items: seq<Item>, size: nat, limit: nat)
    requires IsPow2(size) && size >= 4 && |items| <= size && DistinctKeys(items)
    ensures Wf(Relinked(items, size, limit)) && Contents(Relinked(items, size, limit)) == ToMap(items)
  {
    hide Flatten, IsPow2, Bucket, Wf, Contents;
    if items == [] {
      EmptyLaw(size, limit);
    } else {
      var n := |items| - 1;
      var it := items[n];
      var t := Relinked(items[..n], size, limit);
      RelinkLaw(items[..n], size, limit);
      ToMapHas(items[..n], it.key);
      LookupContents(t, it.key);
      InsertLaw(t, it.key, it.obj);
      assert Relinked(items, size, limit) == Insert(t, it.key, it.obj);
    }
  }

  /** Resizing relinks every entry into one of two buckets and changes nothing else. */
  lemma ResizeLaw(t: Table)
    requires Wf(t)
    ensures Wf(Resize(t)) && |Resize(t).rows| == 2 * |t.rows|
    ensures Contents(Resize(t)) == Contents(t)
    ensures Resize(t).used == t.used && Resize(t).memory == t.memory
    ensures forall i, j :: 0 <= i < |Resize(t).rows| && 0 <= j < |Resize(t).rows[i]| ==>
      var oldIndex := Bucket(Resize(t).rows[i][j].key, |t.rows|); i == oldIndex || i == oldIndex + |t.rows|
  {
    hide Flatten, Bucket, ToMap, Weight, Relink;
    var n := |t.rows|;
    FlattenContents(t);
    assert IsPow2(2 * n);
    RelinkLaw(Flatten(t.rows), 2 * n, t.limit);
    assert Resize(t) == Relinked(Flatten(t.rows), 2 * n, t.limit);
    forall i, j | 0 <= i < |Resize(t).rows| && 0 <= j < |Resize(t).rows[i]|
      ensures var oldIndex := Bucket(Resize(t).rows[i][j].key, n); i == oldIndex || i == oldIndex + n
    {
      BucketDoubles(Resize(t).rows[i][j].key, n);
    }
  }

  // ---------- sweep ----------

  lemma {:induction false} FreshAppend(a: seq<Item>, b: seq<Item>, now: nat)
    ensures Fresh(a + b, now) == Fresh(a, now) + Fresh(b, now)
  {
    if b == [] {
      assert a + b == a;
    } else {
      assert (a + b)[..|a + b| - 1] == a + b[..|b| - 1];
      FreshAppend(a, b[..|b| - 1], now);
    }
  }

  lemma {:induction false} FreshHas(row: seq<Item>, now: nat)
    requires DistinctKeys(row)
    ensures DistinctKeys(Fresh(row, now)) && |Fresh(row, now)| <= |row|
    ensures forall it :: it in Fresh(row, now) <==> it in row && !Expired(it.obj, now)
  {
    if row != [] {
      var n := |row| - 1;
      FreshHas(row[..n], now);
      assert row == row[..n] + [row[n]];
      forall it | it in row[..n] ensures it.key != row[n].key {
        var m :| 0 <= m < n && row[m] == it;
      }
      KeptDistinct(row[..n], Fresh(row[..n], now), row[n]);
    }
  }

  lemma KeptDistinct(row: seq<Item>, kept: seq<Item>, it: Item)
    requires DistinctKeys(kept) && forall x :: x in kept ==> x in row && x.key != it.key
    ensures DistinctKeys(kept + [it])
  {
    assert forall j :: 0 <= j < |kept| ==> kept[j] in kept;
  }

  /** The sweep filters the scan order. */
  lemma {:induction false} FlattenFresh(rows: seq<seq<Item>>, rows': seq<seq<Item>>, now: nat)
    requires |rows'| == |rows| && forall i :: 0 <= i < |rows| ==> rows'[i] == Fresh(rows[i], now)
    ensures Flatten(rows') == Fresh(Flatten(rows), now)
  {
    hide Fresh;
    if rows == [] {
      assert Flatten(rows') == [];
      FreshEmpty(now);
    } else {
      var n := |rows| - 1;
      FlattenFresh(rows[..n], rows'[..n], now);
      FreshAppend(Flatten(rows[..n]), rows[n], now);
    }
  }

  lemma FreshEmpty(now: nat)
    ensures Fresh([], now) == []
  {}

  ghost function LiveOf(m: map<string, Obj>, now: nat): map<string, Obj> {
    map k | k in m && !Expired(m[k], now) :: m[k]
  }

  lemma {:induction false} ToMapFresh(items: seq<Item>, now: nat)
    requires DistinctKeys(items)
    ensures ToMap(Fresh(items, now)) == LiveOf(ToMap(items), now)
  {
    if items != [] {
      var n := |items| - 1;
      ToMapFresh(items[..n], now);
      ToMapHas(items[..n], items[n].key);
      var f := Fresh(items[..n], now);
      if !Expired(items[n].obj, now) {
        assert (f + [items[n]])[..|f|] == f;
      } else {
        assert f + [] == f;
      }
    }
  }

  lemma SweepLaw(t: Table, now: nat)
    requires Wf(t)
    ensures Wf(Sweep(t, now)) && |Sweep(t, now).rows| == |t.rows|
    ensures Contents(Sweep(t, now)) == LiveOf(Contents(t), now)
    ensures Flatten(Sweep(t, now).rows) == Fresh(Flatten(t.rows), now)
  {
    hide Flatten, Weight, IsPow2, Bucket, ToMap, Fresh, Contents;
    var t' := Sweep(t, now);
    FlattenFresh(t.rows, t'.rows, now);
    FlattenContents(t);
    FreshHas(Flatten(t.rows), now);
    forall i | 0 <= i < |t.rows|
      ensures DistinctKeys(t'.rows[i]) && forall j :: 0 <= j < |t'.rows[i]| ==> Bucket(t'.rows[i][j].key, |t.rows|) == i
    {
      FreshHas(t.rows[i], now);
      forall j | 0 <= j < |t'.rows[i]| ensures Bucket(t'.rows[i][j].key, |t.rows|) == i {
        assert t'.rows[i][j] in t'.rows[i];
      }
    }
    assert Wf(t');
    FlattenContents(t');
    ToMapFresh(Flatten(t.rows), now);
  }
}
