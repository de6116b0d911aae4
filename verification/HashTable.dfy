/** The value of the chained hash table of src/dict.c: what is in which bucket, in which
    order, and the two running counters.  Every operation of the table is a function
    here; `Dict` performs the same operations on linked nodes. */
module HashTable {
  import opened Text

  const UINT64_MAX: int := TWO64 - 1

  datatype Obj = Obj(data: string, expire: nat, size: nat, access: nat)
  datatype Item = Item(key: string, obj: Obj)

  /** `limit` is `max_memory`; the table size is the number of rows. */
  datatype Table = Table(rows: seq<seq<Item>>, used: int, memory: int, limit: nat)

  predicate Expired(o: Obj, now: nat) { o.expire != 0 && o.expire < now }

  // ---------- hashing ----------

  /** Characters are signed: bytes above 127 are added as negative numbers. */
  function HashStep(h: nat, c: char): nat {
    U64(h * 33 + if c as int < 128 then c as int else c as int - 256)
  }

  /** djb2 in 64-bit unsigned arithmetic. */
  function Hash(key: string): nat {
    if key == "" then 5381 else HashStep(Hash(key[..|key| - 1]), key[|key| - 1])
  }

  /** The hash of djb2, whose characters are signed. */
  lemma HashValues()
    ensures Hash("") == 5381 && Hash("a") == 177670 && Hash("ab") == 5863208 && Hash("\U{00FF}") == 177572
  {
    assert Hash("a") == 177670;
    assert "ab"[..1] == "a" && "a"[..0] == "" && "\U{00FF}"[..0] == "";
  }

  /** `dict_hash`. */
  method DictHash(key: string) returns (hash: nat)
    ensures hash == Hash(key)
  {
    hash := 5381;
    for i := 0 to |key|
      invariant hash == Hash(key[..i])
    {
      assert key[..i + 1][..i] == key[..i];
      hash := HashStep(hash, key[i]);
    }
    assert key[..|key|] == key;
  }

  /** Bitwise `&`. */
  function And(a: nat, b: nat): (r: nat)
    ensures r <= b
    decreases b
  {
    if b == 0 then 0 else 2 * And(a / 2, b / 2) + (if a % 2 == 1 && b % 2 == 1 then 1 else 0)
  }

  predicate IsPow2(n: nat) {
    n == 1 || (n > 0 && n % 2 == 0 && IsPow2(n / 2))
  }

  /** The first of n, 2n, 4n, ... that is at least `least`. */
  function Doubled(n: nat, least: nat): (r: nat)
    requires n > 0
    ensures r >= least && (n < 2 * least ==> r < 2 * least)
    ensures IsPow2(n) ==> IsPow2(r)
    decreases least - n
  {
    assert (n * 2) % 2 == 0 && (n * 2) / 2 == n;
    if n >= least then n else Doubled(n * 2, least)
  }

  /** The number of buckets `dict_create` makes: at least four, rounded up to a power of two. */
  function InitialSize(asked: nat): (size: nat)
    ensures IsPow2(size) && size >= 4 && asked <= size < 2 * asked + 8
  {
    Doubled(1, if asked < 4 then 4 else asked)
  }

  lemma ModDouble(h: nat, m: nat)
    requires m > 0
    ensures h % (2 * m) == 2 * ((h / 2) % m) + h % 2
  {
    var q, r := (h / 2) / m, (h / 2) % m;
    assert h / 2 == m * q + r;
    assert h == (2 * m) * q + (2 * r + h % 2);
    DivModUnique(h, 2 * m, q, 2 * r + h % 2);
  }

  lemma DivModUnique(h: nat, d: nat, q: nat, r: nat)
    requires r < d && h == d * q + r
    ensures h % d == r
  {
    var q' := h / d;
    assert h == d * q' + h % d;
    MulDiff(d, q, q');
    MulBound(d, q - q');
  }

  lemma MulDiff(d: nat, q: int, q': int)
    ensures d * (q - q') == d * q - d * q'
  {}

  lemma MulBound(d: nat, x: int)
    ensures x >= 1 ==> d * x >= d
    ensures x <= -1 ==> d * x + d <= 0
  {}

  /** Masking with `size - 1` is taking the remainder, since the size is a power of two. */
  lemma {:induction false} MaskIsMod(h: nat, n: nat)
    requires IsPow2(n)
    ensures And(h, n - 1) == h % n
  {
    if n > 1 {
      var m := n / 2;
      assert (n - 1) / 2 == m - 1 && (n - 1) % 2 == 1;
      MaskIsMod(h / 2, m);
      ModDouble(h, m);
    }
  }

  function Bucket(key: string, size: nat): (i: nat)
    requires size > 0
    ensures i < size
  {
    And(Hash(key), size - 1)
  }

  lemma ModHalf(h: nat, n: nat)
    requires n > 0
    ensures h % (2 * n) == h % n || h % (2 * n) == h % n + n
  {
    var q, r := h / n, h % n;
    var c, b := q / 2, q % 2;
    DivMod(h, n);
    MulSplit(n, q, c, b);
    if b == 0 { DivModUnique(h, 2 * n, c, r); } else { DivModUnique(h, 2 * n, c, r + n); }
  }

  lemma DivMod(h: nat, n: nat)
    requires n > 0
    ensures h == n * (h / n) + h % n && h % n < n
  {}

  lemma MulSplit(n: nat, q: nat, c: nat, b: nat)
    requires q == 2 * c + b && b < 2
    ensures n * q == (2 * n) * c + if b == 0 then 0 else n
  {
    assert n * (2 * c) == (2 * n) * c;
    if b == 0 { assert n * q == n * (2 * c); } else { MulNext(n, 2 * c); }
  }

  lemma MulNext(n: nat, x: nat)
    ensures n * (x + 1) == n * x + n
  {}

  /** On doubling, a key of bucket i goes to bucket i or to bucket i + old size. */
  lemma BucketDoubles(key: string, size: nat)
    requires IsPow2(size)
    ensures Bucket(key, 2 * size) == Bucket(key, size) || Bucket(key, 2 * size) == Bucket(key, size) + size
  {
    hide Hash, And;
    MaskIsMod(Hash(key), size);
    MaskIsMod(Hash(key), 2 * size);
    ModHalf(Hash(key), size);
  }

  // ---------- rows ----------

  /** Position of the first entry for a key, as the `strcmp` walk finds it. */
  function IndexOf(row: seq<Item>, key: string): (j: nat)
    ensures j <= |row|
    ensures j < |row| ==> row[j].key == key
    ensures forall i :: 0 <= i < j ==> row[i].key != key
  {
    if row == [] || row[0].key == key then 0 else 1 + IndexOf(row[1..], key)
  }

  lemma IndexOfIs(row: seq<Item>, key: string, j: nat)
    requires j <= |row| && (j < |row| ==> row[j].key == key) && forall i :: 0 <= i < j ==> row[i].key != key
    ensures IndexOf(row, key) == j
  {}

  function RemoveAt(row: seq<Item>, j: nat): seq<Item>
    requires j < |row|
  {
    row[..j] + row[j + 1..]
  }

  ghost predicate DistinctKeys(row: seq<Item>) {
    forall i, j :: 0 <= i < j < |row| ==> row[i].key != row[j].key
  }

  function Weight(row: seq<Item>): nat {
    if row == [] then 0 else Weight(row[..|row| - 1]) + row[|row| - 1].obj.size
  }

  /** All entries in the order in which every loop over the table meets them. */
  function Flatten(rows: seq<seq<Item>>): seq<Item> {
    if rows == [] then [] else Flatten(rows[..|rows| - 1]) + rows[|rows| - 1]
  }

  lemma {:induction false} WeightAppend(a: seq<Item>, b: seq<Item>)
    ensures Weight(a + b) == Weight(a) + Weight(b)
  {
    if b == [] {
      assert a + b == a;
    } else {
      assert (a + b)[..|a + b| - 1] == a + b[..|b| - 1];
      WeightAppend(a, b[..|b| - 1]);
    }
  }

  lemma {:induction false} FlattenAppend(a: seq<seq<Item>>, b: seq<seq<Item>>)
    ensures Flatten(a + b) == Flatten(a) + Flatten(b)
  {
    if b == [] {
      assert a + b == a;
    } else {
      assert (a + b)[..|a + b| - 1] == a + b[..|b| - 1];
      FlattenAppend(a, b[..|b| - 1]);
    }
  }

  /** The entries before, in and after row i. */
  lemma RowsSplit(rows: seq<seq<Item>>, i: nat)
    requires i < |rows|
    ensures rows == (rows[..i] + [rows[i]]) + rows[i + 1..]
  {}

  lemma FlattenSplit(rows: seq<seq<Item>>, i: nat)
    requires i < |rows|
    ensures Flatten(rows) == Flatten(rows[..i]) + rows[i] + Flatten(rows[i + 1..])
  {
    hide Flatten;
    RowsSplit(rows, i);
    var a, b, c := rows[..i], [rows[i]], rows[i + 1..];
    FlattenAppend(a + b, c);
    FlattenAppend(a, b);
    FlattenOne(rows[i]);
  }

  lemma FlattenOne(row: seq<Item>)
    ensures Flatten([row]) == row
  {
    assert Flatten([]) == [] && [] + row == row;
  }

  lemma WeightOne(it: Item)
    ensures Weight([it]) == it.obj.size
  {}

  /** Replacing one row shifts both counters by the difference of the rows. */
  lemma RowUpdate(rows: seq<seq<Item>>, i: nat, row: seq<Item>)
    requires i < |rows|
    ensures |Flatten(rows[i := row])| == |Flatten(rows)| - |rows[i]| + |row|
    ensures Weight(Flatten(rows[i := row])) == Weight(Flatten(rows)) - Weight(rows[i]) + Weight(row)
  {
    hide Weight, Flatten;
    var rows2 := rows[i := row];
    FlattenSplit(rows, i);
    FlattenSplit(rows2, i);
    assert rows2[..i] == rows[..i] && rows2[i + 1..] == rows[i + 1..];
    var a, b := Flatten(rows[..i]), Flatten(rows[i + 1..]);
    WeightAppend(a + rows[i], b);
    WeightAppend(a, rows[i]);
    WeightAppend(a + row, b);
    WeightAppend(a, row);
  }

  lemma WeightRemove(row: seq<Item>, j: nat)
    requires j < |row|
    ensures Weight(RemoveAt(row, j)) == Weight(row) - row[j].obj.size
  {
    hide Weight;
    WeightOne(row[j]);
    assert row == row[..j] + [row[j]] + row[j + 1..];
    WeightAppend(row[..j] + [row[j]], row[j + 1..]);
    WeightAppend(row[..j], [row[j]]);
    WeightAppend(row[..j], row[j + 1..]);
  }

  lemma WeightUpdate(row: seq<Item>, j: nat, it: Item)
    requires j < |row|
    ensures Weight(row[j := it]) == Weight(row) - row[j].obj.size + it.obj.size
  {
    hide Weight;
    var row2 := row[j := it];
    WeightRemove(row, j);
    WeightRemove(row2, j);
    assert RemoveAt(row, j) == RemoveAt(row2, j);
  }

  // ---------- the invariant ----------

  /** Every entry stands in the bucket of its key. */
  ghost predicate Placed(rows: seq<seq<Item>>) {
    forall i, j :: 0 <= i < |rows| && 0 <= j < |rows[i]| ==> Bucket(rows[i][j].key, |rows|) == i
  }

  ghost predicate DistinctRows(rows: seq<seq<Item>>) {
    forall i :: 0 <= i < |rows| ==> DistinctKeys(rows[i])
  }

  ghost predicate Wf(t: Table)
    ensures Wf(t) ==> |t.rows| >= 4
  {
    && IsPow2(|t.rows|) && |t.rows| >= 4
    && Placed(t.rows) && DistinctRows(t.rows)
    && t.used == |Flatten(t.rows)| <= |t.rows|
    && t.memory == Weight(Flatten(t.rows))
  }

  function Lookup(t: Table, key: string): Option<Obj>
    requires |t.rows| > 0
  {
    var row := t.rows[Bucket(key, |t.rows|)];
    var j := IndexOf(row, key);
    if j < |row| then Some(row[j].obj) else None
  }

  /** The map the table stands for. */
  ghost function Contents(t: Table): map<string, Obj>
    requires |t.rows| > 0
  {
    map key | key in Keys(t.rows) && Lookup(t, key).Some? :: Lookup(t, key).value
  }

  ghost function Keys(rows: seq<seq<Item>>): set<string> {
    set i, j | 0 <= i < |rows| && 0 <= j < |rows[i]| :: rows[i][j].key
  }

  lemma LookupContents(t: Table, key: string)
    requires |t.rows| > 0
    ensures Lookup(t, key) == if key in Contents(t) then Some(Contents(t)[key]) else None
  {
    var i := Bucket(key, |t.rows|);
    var j := IndexOf(t.rows[i], key);
    if j < |t.rows[i]| { assert t.rows[i][j].key in Keys(t.rows); }
  }

  /** Two tables that answer every lookup alike hold the same map. */
  lemma SameLookups(t: Table, m: map<string, Obj>)
    requires |t.rows| > 0
    requires forall key :: Lookup(t, key) == if key in m then Some(m[key]) else None
    ensures Contents(t) == m
  {
    forall key ensures key in Contents(t) <==> key in m { LookupContents(t, key); }
    forall key | key in m ensures Contents(t)[key] == m[key] { LookupContents(t, key); }
  }

  // ---------- one row replaced ----------

  /** `t` with row i replaced and both counters moved accordingly. */
  function SetRow(t: Table, i: nat, row: seq<Item>): Table
    requires i < |t.rows|
  {
    t.(rows := t.rows[i := row],
       used := t.used - |t.rows[i]| + |row|,
       memory := t.memory - Weight(t.rows[i]) + Weight(row))
  }

  lemma SetRowWf(t: Table, i: nat, row: seq<Item>)
    requires Wf(t) && i < |t.rows| && DistinctKeys(row)
    requires forall j :: 0 <= j < |row| ==> Bucket(row[j].key, |t.rows|) == i
    requires t.used - |t.rows[i]| + |row| <= |t.rows|
    ensures Wf(SetRow(t, i, row))
  {
    hide Weight, Flatten, And, Hash, IsPow2;
    RowUpdate(t.rows, i, row);
  }

  // ---------- the operations ----------

  function Delete(t: Table, key: string): Table
    requires |t.rows| > 0
  {
    var i := Bucket(key, |t.rows|);
    var j := IndexOf(t.rows[i], key);
    if j == |t.rows[i]| then t
    else t.(rows := t.rows[i := RemoveAt(t.rows[i], j)], used := t.used - 1, memory := t.memory - t.rows[i][j].obj.size)
  }

  /** Overwrites the object of a key that is present. */
  function Put(t: Table, key: string, o: Obj): Table
    requires |t.rows| > 0 && Lookup(t, key).Some?
  {
    var i := Bucket(key, |t.rows|);
    var j := IndexOf(t.rows[i], key);
    t.(rows := t.rows[i := t.rows[i][j := Item(key, o)]], memory := t.memory - t.rows[i][j].obj.size + o.size)
  }

  /** Links a new entry at the head of its bucket. */
  function Insert(t: Table, key: string, o: Obj): Table
    requires |t.rows| > 0
  {
    var i := Bucket(key, |t.rows|);
    t.(rows := t.rows[i := [Item(key, o)] + t.rows[i]], used := t.used + 1, memory := t.memory + o.size)
  }

  /** `dict_get`: a stale entry is deleted on the way, a fresh one is touched. */
  function Get(t: Table, key: string, now: nat): Table
    requires |t.rows| > 0
  {
    match Lookup(t, key)
    case None => t
    case Some(o) => if Expired(o, now) then Delete(t, key) else Put(t, key, o.(access := now))
  }

  /** What `dict_get` returns. */
  function Fetched(t: Table, key: string, now: nat): Option<Obj>
    requires |t.rows| > 0
  {
    match Lookup(t, key)
    case None => None
    case Some(o) => if Expired(o, now) then None else Some(o.(access := now))
  }

  function Empty(size: nat): seq<seq<Item>> { seq(size, _ => []) }

  function Push(rows: seq<seq<Item>>, it: Item): seq<seq<Item>>
    requires |rows| > 0
  {
    var i := Bucket(it.key, |rows|);
    rows[i := [it] + rows[i]]
  }

  /** Entries relinked one after the other, each at the head of its new bucket. */
  function Relink(items: seq<Item>, size: nat): (rows: seq<seq<Item>>)
    requires size > 0
    ensures |rows| == size
  {
    if items == [] then Empty(size) else Push(Relink(items[..|items| - 1], size), items[|items| - 1])
  }

  /** `dict_resize`. */
  function Resize(t: Table): Table
    requires |t.rows| > 0
  {
    t.(rows := Relink(Flatten(t.rows), 2 * |t.rows|))
  }

  function Fresh(row: seq<Item>, now: nat): seq<Item> {
    if row == [] then []
    else Fresh(row[..|row| - 1], now) + if Expired(row[|row| - 1].obj, now) then [] else [row[|row| - 1]]
  }

  /** `dict_clear_expired`. */
  function Sweep(t: Table, now: nat): Table {
    var rows := seq(|t.rows|, i requires 0 <= i < |t.rows| => Fresh(t.rows[i], now));
    t.(rows := rows,
       used := t.used - |Flatten(t.rows)| + |Flatten(rows)|,
       memory := t.memory - Weight(Flatten(t.rows)) + Weight(Flatten(rows)))
  }

  /** Position of the first entry with the least access time below UINT64_MAX. */
  function Oldest(items: seq<Item>): (k: nat)
    ensures k <= |items|
    ensures k < |items| ==> items[k].obj.access < UINT64_MAX
    ensures forall i :: 0 <= i < |items| ==>
      if k < |items| then items[k].obj.access <= items[i].obj.access else items[i].obj.access >= UINT64_MAX
    ensures forall i :: 0 <= i < k < |items| ==> items[k].obj.access < items[i].obj.access
  {
    if items == [] then 0
    else
      var n := |items| - 1;
      var k := Oldest(items[..n]);
      assert forall i :: 0 <= i < n ==> items[..n][i] == items[i];
      if items[n].obj.access < (if k < n then items[k].obj.access else UINT64_MAX) then n
      else if k < n then k else |items|
  }
}
