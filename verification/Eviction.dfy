/** Least-recently-used eviction, `dict_add`, and whole runs of the table against a map. */
module Eviction {
  import opened Text
  import opened HashTable
  import opened TableLaws

  predicate OverLimit(t: Table) { t.limit != 0 && t.memory > t.limit }

  /** The victim of one round is a stored key. */
  lemma VictimStored(t: Table, k: nat)
    requires Wf(t) && k < |Flatten(t.rows)|
    ensures var it := Flatten(t.rows)[k]; it.key in Contents(t) && Contents(t)[it.key] == it.obj
  {
    hide Wf;
    var items := Flatten(t.rows);
    FlattenContents(t);
    ToMapHas(items, items[k].key);
  }

  /** `dict_evict_lru_if_needed`: while the table is over its limit, the oldest entry goes. */
  function Evict(t: Table): Table
    requires Wf(t)
    decreases t.used
  {
    var items := Flatten(t.rows);
    var k := Oldest(items);
    if !OverLimit(t) || k == |items| then t
    else
      VictimStored(t, k);
      DeleteLaw(t, items[k].key);
      Evict(Delete(t, items[k].key))
  }

  /** The evicted entries, in the order in which they go. */
  function Victims(t: Table): seq<Item>
    requires Wf(t)
    decreases t.used
  {
    var items := Flatten(t.rows);
    var k := Oldest(items);
    if !OverLimit(t) || k == |items| then []
    else
      VictimStored(t, k);
      DeleteLaw(t, items[k].key);
      [items[k]] + Victims(Delete(t, items[k].key))
  }

  ghost function KeysOf(items: seq<Item>): set<string> {
    set i | 0 <= i < |items| :: items[i].key
  }

  /** Access times never reach UINT64_MAX, the scan's starting value. */
  ghost predicate Aged(t: Table)
    requires |t.rows| > 0
  {
    forall k :: k in Contents(t) ==> Contents(t)[k].access < UINT64_MAX
  }

  /** One round takes an entry that no other entry is older than. */
  lemma OldestIsLeast(t: Table, k: nat)
    requires Wf(t) && k == Oldest(Flatten(t.rows)) < |Flatten(t.rows)|
    ensures forall key :: key in Contents(t) ==> Flatten(t.rows)[k].obj.access <= Contents(t)[key].access
  {
    hide Wf, Oldest;
    var items := Flatten(t.rows);
    FlattenContents(t);
    forall key | key in Contents(t) ensures items[k].obj.access <= Contents(t)[key].access {
      ToMapHas(items, key);
    }
  }

  lemma NoneOldest(t: Table, key: string)
    requires Wf(t) && Oldest(Flatten(t.rows)) == |Flatten(t.rows)|
    requires key in Contents(t)
    ensures Contents(t)[key].access >= UINT64_MAX
  {
    hide Wf, Oldest;
    FlattenContents(t);
    ToMapHas(Flatten(t.rows), key);
  }

  lemma WeightFirst(it: Item, rest: seq<Item>)
    ensures Weight([it] + rest) == it.obj.size + Weight(rest)
    ensures KeysOf([it] + rest) == {it.key} + KeysOf(rest)
  {
    WeightPrepend(it, rest);
    var all := [it] + rest;
    forall i | 0 <= i < |rest| ensures rest[i].key in KeysOf(all) { assert all[i + 1] == rest[i]; }
    assert all[0] == it;
  }

  /** The structural half: eviction keeps the table well formed, removes exactly the
      victims, and gives back exactly their memory. */
  lemma {:induction false} EvictRemoves(t: Table)
    requires Wf(t)
    ensures Wf(Evict(t)) && |Evict(t).rows| == |t.rows| && Evict(t).limit == t.limit
    ensures Contents(Evict(t)) == Contents(t) - KeysOf(Victims(t))
    ensures t.memory == Evict(t).memory + Weight(Victims(t))
    ensures !OverLimit(t) ==> Evict(t) == t && Victims(t) == []
    decreases t.used
  {
    hide Wf, Oldest, Contents, Delete, Weight;
    var items := Flatten(t.rows);
    var k := Oldest(items);
    if OverLimit(t) && k < |items| {
      VictimStored(t, k);
      DeleteLaw(t, items[k].key);
      var t' := Delete(t, items[k].key);
      DeleteKeepsLimit(t, items[k].key);
      UsedNat(t);
      UsedNat(t');
      EvictRemoves(t');
      WeightFirst(items[k], Victims(t'));
    } else {
      WeightNone();
    }
  }

  lemma WeightNone()
    ensures Weight([]) == 0
  {}

  lemma UsedNat(t: Table)
    requires Wf(t)
    ensures t.used >= 0 && t.memory >= 0
  {}

  lemma DeleteKeepsLimit(t: Table, key: string)
    requires |t.rows| > 0
    ensures Delete(t, key).limit == t.limit
  {}

  /** The policy half: sufficient, least recently used first, and minimal. */
  lemma {:induction false} EvictPolicy(t: Table)
    requires Wf(t)
    ensures Wf(Evict(t))
    ensures t.limit != 0 && Aged(t) ==> Evict(t).memory <= t.limit
    ensures forall i, key :: 0 <= i < |Victims(t)| && key in Contents(Evict(t)) ==>
      Victims(t)[i].obj.access <= Contents(Evict(t))[key].access
    ensures Victims(t) != [] ==> Evict(t).memory + Victims(t)[|Victims(t)| - 1].obj.size > t.limit
    decreases t.used
  {
    hide Wf, Oldest, Contents, Delete;
    EvictRemoves(t);
    var items := Flatten(t.rows);
    var k := Oldest(items);
    if OverLimit(t) && k < |items| {
      VictimStored(t, k);
      DeleteLaw(t, items[k].key);
      OldestIsLeast(t, k);
      var t' := Delete(t, items[k].key);
      DeleteKeepsLimit(t, items[k].key);
      UsedNat(t);
      UsedNat(t');
      EvictPolicy(t');
      EvictRemoves(t');
      if Victims(t') == [] {
        WeightNone();
        assert Victims(t)[|Victims(t)| - 1] == items[k];
      } else {
        assert Victims(t)[|Victims(t)| - 1] == Victims(t')[|Victims(t')| - 1];
      }
    } else if OverLimit(t) {
      NothingLeft(t);
    }
  }

  /** A table over its limit without a victim holds entries stamped UINT64_MAX. */
  lemma NothingLeft(t: Table)
    requires Wf(t) && OverLimit(t) && Oldest(Flatten(t.rows)) == |Flatten(t.rows)|
    ensures !Aged(t)
  {
    hide Oldest;
    var items := Flatten(t.rows);
    if items == [] {
      WeightNone();
    } else {
      VictimStored(t, 0);
      NoneOldest(t, items[0].key);
    }
  }

  // ---------- dict_add ----------

  /** The table after linking or overwriting, before eviction. */
  function Store(t: Table, key: string, o: Obj): Table
    requires Wf(t)
  {
    var t1 := if t.used >= |t.rows| then Resize(t) else t;
    ResizeLaw(t);
    if Lookup(t1, key).Some? then Put(t1, key, o) else Insert(t1, key, o)
  }

  lemma StoreLaw(t: Table, key: string, o: Obj)
    requires Wf(t)
    ensures Wf(Store(t, key, o)) && Store(t, key, o).limit == t.limit
    ensures Contents(Store(t, key, o)) == Contents(t)[key := o]
    ensures Store(t, key, o).memory == t.memory - (if key in Contents(t) then Contents(t)[key].size else 0) + o.size
  {
    hide Contents, Flatten, Weight, IsPow2, Bucket, Relink;
    ResizeLaw(t);
    var t1 := if t.used >= |t.rows| then Resize(t) else t;
    assert t1.used < |t1.rows|;
    LookupContents(t1, key);
    if Lookup(t1, key).Some? {
      PutLaw(t1, key, o);
    } else {
      InsertLaw(t1, key, o);
    }
  }

  /** `dict_add`. */
  function Add(t: Table, key: string, o: Obj, now: nat): Table
    requires Wf(t)
  {
    StoreLaw(t, key, o.(access := now));
    Evict(Store(t, key, o.(access := now)))
  }

  lemma AddLaw(t: Table, key: string, o: Obj, now: nat)
    requires Wf(t)
    ensures Wf(Add(t, key, o, now)) && Add(t, key, o, now).limit == t.limit
    ensures t.limit == 0 ==> Contents(Add(t, key, o, now)) == Contents(t)[key := o.(access := now)]
    ensures t.limit != 0 && now < UINT64_MAX && Aged(t) ==>
      Aged(Add(t, key, o, now)) && Add(t, key, o, now).memory <= t.limit
  {
    hide Wf, Contents, Store, Evict, Victims;
    var o' := o.(access := now);
    StoreLaw(t, key, o');
    EvictRemoves(Store(t, key, o'));
    EvictPolicy(Store(t, key, o'));
  }

  lemma GetLaw(t: Table, key: string, now: nat)
    requires Wf(t)
    ensures Wf(Get(t, key, now)) && Get(t, key, now).limit == t.limit && |Get(t, key, now).rows| == |t.rows|
    ensures var m := Contents(t);
      if key !in m then Fetched(t, key, now) == None && Contents(Get(t, key, now)) == m
      else if Expired(m[key], now) then Fetched(t, key, now) == None && Contents(Get(t, key, now)) == m - {key}
      else Fetched(t, key, now) == Some(m[key].(access := now)) && Contents(Get(t, key, now)) == m[key := m[key].(access := now)]
  {
    hide Wf, Contents, Delete, Put;
    LookupContents(t, key);
    DeleteLaw(t, key);
    DeleteKeepsLimit(t, key);
    if Lookup(t, key).Some? {
      PutLaw(t, key, Lookup(t, key).value.(access := now));
      PutKeepsLimit(t, key, Lookup(t, key).value.(access := now));
    }
  }

  lemma PutKeepsLimit(t: Table, key: string, o: Obj)
    requires |t.rows| > 0 && Lookup(t, key).Some?
    ensures Put(t, key, o).limit == t.limit
  {}

  // ---------- whole runs ----------

  /** The calls of dict.c's interface. */
  datatype Call =
    | CallAdd(key: string, obj: Obj)
    | CallGet(key: string)
    | CallDelete(key: string)
    | CallResize
    | CallSweep

  /** Return values: an object or NULL, or 1 or 0. */
  datatype Ret = Found(obj: Option<Obj>) | Flag(ok: bool) | Nothing

  function TableStep(t: Table, c: Call, now: nat): (Table, Ret)
    requires Wf(t)
  {
    match c
    case CallAdd(k, o) => (Add(t, k, o, now), Flag(true))
    case CallGet(k) => (Get(t, k, now), Found(Fetched(t, k, now)))
    case CallDelete(k) => (Delete(t, k), Flag(Lookup(t, k).Some?))
    case CallResize => (Resize(t), Nothing)
    case CallSweep => (Sweep(t, now), Nothing)
  }

  /** The same calls on a plain map with expiry times. */
  ghost function MapStep(m: map<string, Obj>, c: Call, now: nat): (map<string, Obj>, Ret) {
    match c
    case CallAdd(k, o) => (m[k := o.(access := now)], Flag(true))
    case CallGet(k) =>
      if k !in m then (m, Found(None))
      else if Expired(m[k], now) then (m - {k}, Found(None))
      else (m[k := m[k].(access := now)], Found(Some(m[k].(access := now))))
    case CallDelete(k) => (m - {k}, Flag(k in m))
    case CallResize => (m, Nothing)
    case CallSweep => (LiveOf(m, now), Nothing)
  }

  /** The keys a call evicts. */
  ghost function Evicted(t: Table, c: Call, now: nat): set<string>
    requires Wf(t)
  {
    match c
    case CallAdd(k, o) => StoreLaw(t, k, o.(access := now)); KeysOf(Victims(Store(t, k, o.(access := now))))
    case _ => {}
  }

  /** With any limit, each call does to the table and answers what it does to the map and
      answers there, but for the keys it evicts.  Without a limit it evicts none. */
  lemma StepRefines(t: Table, c: Call, now: nat)
    requires Wf(t)
    ensures var (t', r) := TableStep(t, c, now);
      && Wf(t') && t'.limit == t.limit
      && MapStep(Contents(t), c, now).1 == r
      && MapStep(Contents(t), c, now).0 - Evicted(t, c, now) == Contents(t')
      && (t.limit == 0 ==> Evicted(t, c, now) == {})
  {
    hide Wf, Contents, Lookup, Get, Fetched, Delete, Resize, Sweep, Store, Evict, Victims;
    match c
    case CallAdd(k, o) =>
      StoreLaw(t, k, o.(access := now));
      EvictRemoves(Store(t, k, o.(access := now)));
    case CallGet(k) => GetLaw(t, k, now);
    case CallDelete(k) =>
      LookupContents(t, k);
      DeleteLaw(t, k);
      DeleteKeepsLimit(t, k);
    case CallResize =>
      ResizeLaw(t);
      assert Resize(t).limit == t.limit by { ResizeKeepsLimit(t); }
    case CallSweep =>
      SweepLaw(t, now);
      assert Sweep(t, now).limit == t.limit by { SweepKeepsLimit(t, now); }
  }

  lemma ResizeKeepsLimit(t: Table)
    requires |t.rows| > 0
    ensures Resize(t).limit == t.limit
  {}

  lemma SweepKeepsLimit(t: Table, now: nat)
    ensures Sweep(t, now).limit == t.limit
  {}

  /** A table that is within its limit, if it has one. */
  ghost predicate Within(t: Table) {
    t.limit == 0 || t.memory <= t.limit
  }

  /** No call but an addition uses more memory, and an addition ends within the limit. */
  lemma StepWithin(t: Table, c: Call, now: nat)
    requires Wf(t) && Aged(t) && now < UINT64_MAX
    ensures var t' := TableStep(t, c, now).0;
      && Wf(t') && Aged(t') && (c.CallAdd? || Within(t) ==> Within(t'))
  {
    hide Wf, Contents, Lookup, Add, Get, Delete, Resize, Sweep;
    StepRefines(t, c, now);
    StepAged(t, c, now);
    match c
    case CallAdd(k, o) => AddLaw(t, k, o, now);
    case CallGet(k) => GetMemory(t, k, now);
    case CallDelete(k) => DeleteMemory(t, k);
    case CallResize => ResizeLaw(t);
    case CallSweep => SweepMemory(t, now);
  }

  lemma StepAged(t: Table, c: Call, now: nat)
    requires Wf(t) && Aged(t) && now < UINT64_MAX
    ensures Wf(TableStep(t, c, now).0) && Aged(TableStep(t, c, now).0)
  {
    hide Wf, Contents, TableStep;
    StepRefines(t, c, now);
  }

  lemma DeleteMemory(t: Table, key: string)
    requires Wf(t)
    ensures Delete(t, key).memory <= t.memory && Delete(t, key).limit == t.limit
  {}

  lemma GetMemory(t: Table, key: string, now: nat)
    requires Wf(t)
    ensures Get(t, key, now).memory <= t.memory && Get(t, key, now).limit == t.limit
  {
    hide Wf, Delete, Contents;
    DeleteMemory(t, key);
    LookupContents(t, key);
    if Lookup(t, key).Some? { PutLaw(t, key, Lookup(t, key).value.(access := now)); }
  }

  lemma SweepMemory(t: Table, now: nat)
    requires Wf(t)
    ensures Sweep(t, now).memory <= t.memory && Sweep(t, now).limit == t.limit
  {
    hide Wf, Contents, Flatten, Fresh;
    SweepLaw(t, now);
    SweepKeepsLimit(t, now);
    FreshWeight(Flatten(t.rows), now);
    MemoryIs(t);
    MemoryIs(Sweep(t, now));
  }

  lemma MemoryIs(t: Table)
    requires Wf(t)
    ensures t.memory == Weight(Flatten(t.rows))
  {}

  lemma {:induction false} FreshWeight(items: seq<Item>, now: nat)
    ensures Weight(Fresh(items, now)) <= Weight(items)
  {
    hide Weight;
    if items == [] {
      FreshEmpty(now);
    } else {
      var n := |items| - 1;
      FreshWeight(items[..n], now);
      WeightAppend(items[..n], [items[n]]);
      WeightOne(items[n]);
      WeightAppend(Fresh(items[..n], now), [items[n]]);
      assert items == items[..n] + [items[n]];
      assert Fresh(items, now) == if Expired(items[n].obj, now) then Fresh(items[..n], now) else Fresh(items[..n], now) + [items[n]];
    }
  }

  datatype Timed = Timed(call: Call, now: nat)

  function TableRun(t: Table, run: seq<Timed>): (Table, seq<Ret>)
    requires Wf(t)
    decreases |run|
  {
    if run == [] then (t, [])
    else
      StepRefines(t, run[0].call, run[0].now);
      var (t1, r) := TableStep(t, run[0].call, run[0].now);
      var (t2, rs) := TableRun(t1, run[1..]);
      (t2, [r] + rs)
  }

  /** The keys evicted by each call of a run. */
  ghost function Evictions(t: Table, run: seq<Timed>): (gone: seq<set<string>>)
    requires Wf(t)
    ensures |gone| == |run|
    decreases |run|
  {
    if run == [] then []
    else
      StepRefines(t, run[0].call, run[0].now);
      [Evicted(t, run[0].call, run[0].now)] + Evictions(TableStep(t, run[0].call, run[0].now).0, run[1..])
  }

  /** The same run on a map that loses some keys after each call. */
  ghost function MapRun(m: map<string, Obj>, run: seq<Timed>, gone: seq<set<string>>): (map<string, Obj>, seq<Ret>)
    requires |gone| == |run|
    decreases |run|
  {
    if run == [] then (m, [])
    else
      var (m1, r) := MapStep(m, run[0].call, run[0].now);
      var (m2, rs) := MapRun(m1 - gone[0], run[1..], gone[1..]);
      (m2, [r] + rs)
  }

  /** Over every run of add, get, delete, resize and sweep, the table keeps its invariant
      and its limit, and answers and changes as the map does that loses the evicted keys;
      without a limit none are evicted. */
  lemma {:induction false} RunRefines(t: Table, run: seq<Timed>)
    requires Wf(t)
    ensures var (t', rs) := TableRun(t, run);
      && Wf(t') && t'.limit == t.limit
      && MapRun(Contents(t), run, Evictions(t, run)) == (Contents(t'), rs)
      && (t.limit == 0 ==> forall i :: 0 <= i < |run| ==> Evictions(t, run)[i] == {})
    decreases |run|
  {
    hide Wf, Contents, TableStep, MapStep, Evicted;
    if run != [] {
      StepRefines(t, run[0].call, run[0].now);
      var (t1, r) := TableStep(t, run[0].call, run[0].now);
      RunRefines(t1, run[1..]);
      assert Evictions(t, run)[1..] == Evictions(t1, run[1..]);
    }
  }

  /** Over every run, a table within its limit stays within it, and any addition brings
      one above the limit back. */
  lemma {:induction false} RunWithin(t: Table, run: seq<Timed>)
    requires Wf(t) && Aged(t) && forall i :: 0 <= i < |run| ==> run[i].now < UINT64_MAX
    ensures var t' := TableRun(t, run).0;
      && Wf(t') && Aged(t')
      && (Within(t) || (exists i :: 0 <= i < |run| && run[i].call.CallAdd?) ==> Within(t'))
    decreases |run|
  {
    hide Wf, Contents, TableStep, Within, Aged;
    if run != [] {
      StepRefines(t, run[0].call, run[0].now);
      StepWithin(t, run[0].call, run[0].now);
      RunWithin(TableStep(t, run[0].call, run[0].now).0, run[1..]);
      forall i | 0 < i < |run| && run[i].call.CallAdd? ensures run[1..][i - 1].call.CallAdd? {}
    }
  }
}
