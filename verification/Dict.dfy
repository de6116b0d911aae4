/** The chained hash table of src/dict.c on linked entries.  Every method performs the
    pointer surgery of its C function and is specified by the operation of the same name
    on the table value. */
module DictHeap {
  import opened Text
  import opened HashTable
  import opened TableLaws
  import opened Eviction

  class Entry {
    const key: string
    var val: Obj
    var next: Entry?

    constructor (key: string, val: Obj, next: Entry?)
      ensures this.key == key && this.val == val && this.next == next
    {
      this.key, this.val, this.next := key, val, next;
    }
  }

  /** No entry stands at two positions. */
  ghost predicate Apart(chains: seq<seq<Entry>>) {
    forall i, j, i', j' ::
      0 <= i < |chains| && 0 <= i' < |chains| && 0 <= j < |chains[i]| && 0 <= j' < |chains[i']| ==>
      chains[i][j] == chains[i'][j'] ==> i == i' && j == j'
  }

  /** The entries linked in some chain. */
  ghost function Entries(chains: seq<seq<Entry>>): set<Entry> {
    set i, j | 0 <= i < |chains| && 0 <= j < |chains[i]| :: chains[i][j]
  }

  ghost function Members(chain: seq<Entry>): set<Entry> { set e | e in chain }

  lemma AllIn(chains: seq<seq<Entry>>)
    ensures forall i, j :: 0 <= i < |chains| && 0 <= j < |chains[i]| ==> chains[i][j] in Entries(chains)
  {}

  lemma NoMembers()
    ensures Members([]) == {}
  {}

  lemma NoEntries(n: nat)
    ensures Entries(seq(n, _ => [])) == {}
  {}

  lemma EntriesUpTo(chains: seq<seq<Entry>>, i: nat)
    requires i < |chains|
    ensures Entries(chains[..i + 1]) == Entries(chains[..i]) + Members(chains[i])
  {
    var c := chains[..i + 1];
    forall e | e in Entries(c) ensures e in Entries(chains[..i]) + Members(chains[i]) {
      var a, b :| 0 <= a < |c| && 0 <= b < |c[a]| && c[a][b] == e;
      if a < i { assert chains[..i][a][b] == e; }
    }
    forall e | e in Entries(chains[..i]) ensures e in Entries(c) {
      var a, b :| 0 <= a < i && 0 <= b < |chains[..i][a]| && chains[..i][a][b] == e;
      assert c[a][b] == e;
    }
    forall e | e in chains[i] ensures e in Entries(c) {
      var b :| 0 <= b < |chains[i]| && chains[i][b] == e;
      assert c[i][b] == e;
    }
  }

  /** A new head adds one entry. */
  lemma EntriesWith(chains: seq<seq<Entry>>, i: nat, entry: Entry)
    requires i < |chains|
    ensures Entries(chains[i := [entry] + chains[i]]) == Entries(chains) + {entry}
  {
    var c := chains[i := [entry] + chains[i]];
    forall e | e in Entries(c) ensures e in Entries(chains) + {entry} {
      var a, b :| 0 <= a < |c| && 0 <= b < |c[a]| && c[a][b] == e;
      if a != i { assert chains[a][b] == e; } else if b > 0 { assert chains[i][b - 1] == e; }
    }
    forall e | e in Entries(chains) ensures e in Entries(c) {
      var a, b :| 0 <= a < |chains| && 0 <= b < |chains[a]| && chains[a][b] == e;
      assert if a != i then c[a][b] == e else c[i][b + 1] == e;
    }
    assert c[i][0] == entry;
  }

  /** Taking out an entry that stands nowhere else removes it alone. */
  lemma EntriesWithout(chains: seq<seq<Entry>>, i: nat, j: nat)
    requires i < |chains| && j < |chains[i]|
    requires forall a, b :: 0 <= a < |chains| && 0 <= b < |chains[a]| && chains[a][b] == chains[i][j] ==> a == i && b == j
    ensures Entries(chains[i := chains[i][..j] + chains[i][j + 1..]]) == Entries(chains) - {chains[i][j]}
  {
    var c := chains[i := chains[i][..j] + chains[i][j + 1..]];
    forall e | e in Entries(c) ensures e in Entries(chains) - {chains[i][j]} {
      var a, b :| 0 <= a < |c| && 0 <= b < |c[a]| && c[a][b] == e;
      assert e == if a != i || b < j then chains[a][b] else chains[i][b + 1];
    }
    forall e | e in Entries(chains) - {chains[i][j]} ensures e in Entries(c) {
      var a, b :| 0 <= a < |chains| && 0 <= b < |chains[a]| && chains[a][b] == e;
      assert e == if a != i || b < j then c[a][b] else c[i][b - 1];
    }
  }

  ghost function After(chain: seq<Entry>, j: nat): Entry? {
    if j + 1 < |chain| then chain[j + 1] else null
  }

  /** `head` starts the chain of exactly these entries, which hold exactly this row. */
  ghost predicate Linked(head: Entry?, chain: seq<Entry>, row: seq<Item>)
    reads chain
  {
    && |chain| == |row|
    && head == (if chain == [] then null else chain[0])
    && forall j :: 0 <= j < |chain| ==>
      && chain[j].key == row[j].key && chain[j].val == row[j].obj
      && chain[j].next == After(chain, j)
  }

  /** A chain with the link around its j-th entry is the chain without that entry. */
  lemma RemoveLinked(head: Entry?, chain: seq<Entry>, row: seq<Item>, j: nat)
    requires j < |chain| == |row|
    requires forall k :: 0 <= k < |chain| ==> chain[k].key == row[k].key && chain[k].val == row[k].obj
    requires forall k :: 0 <= k < |chain| && k != j - 1 ==> chain[k].next == After(chain, k)
    requires if j == 0 then head == After(chain, 0) else head == chain[0] && chain[j - 1].next == After(chain, j)
    ensures Linked(head, chain[..j] + chain[j + 1..], RemoveAt(row, j))
  {
    var c := chain[..j] + chain[j + 1..];
    forall k | 0 <= k < |c|
      ensures c[k].key == RemoveAt(row, j)[k].key && c[k].val == RemoveAt(row, j)[k].obj && c[k].next == After(c, k)
    {
      var k' := if k < j then k else k + 1;
      assert c[k] == chain[k'] && RemoveAt(row, j)[k] == row[k'];
    }
  }

  class Dict {
    var table: array<Entry?>
    var size: nat
    var mask: nat
    var used: int
    var usedMemory: int
    var maxMemory: nat

    ghost var chains: seq<seq<Entry>>
    ghost var rows: seq<seq<Item>>
    ghost var repr: set<Entry>

    ghost predicate Shape()
      reads this, table, repr
    {
      && |rows| == |chains| == size == table.Length && mask + 1 == size
      && repr == Entries(chains)
      && (forall i :: 0 <= i < size ==> Linked(table[i], chains[i], rows[i]))
    }

    ghost function Model(): Table
      reads this
    {
      Table(rows, used, usedMemory, maxMemory)
    }

    ghost predicate Valid()
      reads this, table, repr
    {
      Shape() && Wf(Model())
    }

    /** `dict_create`: at least four buckets, rounded up to a power of two. */
    constructor (initialSize: nat)
      ensures Valid() && fresh(table) && fresh(repr)
      ensures Model() == Table(Empty(InitialSize(initialSize)), 0, 0, 0) && Contents(Model()) == map[]
    {
      var least := if initialSize < 4 then 4 else initialSize;
      var n := 1;
      while n < least
        invariant n > 0 && Doubled(n, least) == InitialSize(initialSize)
        decreases least - n
      {
        n := n * 2;
      }
      table := new Entry?[n](_ => null);
      size, mask, used, usedMemory, maxMemory := n, n - 1, 0, 0, 0;
      chains, rows, repr := seq(n, _ => []), Empty(n), {};
      EmptyLaw(n, 0);
      NoEntries(n);
    }

    /** The walk shared by add, get and delete: to the entry of a key, and the one before it. */
    method Find(key: string) returns (idx: nat, prev: Entry?, entry: Entry?, ghost j: nat)
      requires Valid()
      ensures idx == Bucket(key, size) && j == IndexOf(rows[idx], key)
      ensures At(idx, j, prev, entry)
    {
      hide Wf, Hash, And, IndexOf, Entries;
      PlacedDistinct(Model());
      var hash := DictHash(key);
      idx := And(hash, mask);
      entry, prev, j := table[idx], null, 0;
      while entry != null && entry.key != key
        invariant At(idx, j, prev, entry)
        invariant forall i :: 0 <= i < j ==> rows[idx][i].key != key
        decreases |rows[idx]| - j
      {
        prev, entry, j := entry, entry.next, j + 1;
      }
      IndexOfIs(rows[idx], key, j);
    }

    /** The two pointers stand at position j of chain i. */
    ghost predicate At(i: nat, j: nat, prev: Entry?, entry: Entry?)
      requires Shape()
      reads this, table, repr
    {
      && i < size && j <= |chains[i]|
      && entry == (if j < |chains[i]| then chains[i][j] else null)
      && prev == (if j == 0 then null else chains[i][j - 1])
    }

    /** No entry stands at two positions. */
    lemma Unique(i: nat, j: nat)
      requires Valid() && i < size && j < |chains[i]|
      ensures forall i', j' :: 0 <= i' < size && 0 <= j' < |chains[i']| && chains[i'][j'] == chains[i][j] ==> i' == i && j' == j
    {
      hide Bucket, Entries;
      PlacedDistinct(Model());
      forall i', j' | 0 <= i' < size && 0 <= j' < |chains[i']| && chains[i'][j'] == chains[i][j] ensures i' == i && j' == j {
        assert Linked(table[i], chains[i], rows[i]) && Linked(table[i'], chains[i'], rows[i']);
      }
    }

    lemma AllApart()
      requires Valid()
      ensures Apart(chains)
    {
      forall i, j | 0 <= i < size && 0 <= j < |chains[i]|
        ensures forall i', j' :: 0 <= i' < size && 0 <= j' < |chains[i']| && chains[i'][j'] == chains[i][j] ==> i' == i && j' == j
      {
        Unique(i, j);
      }
    }

    /** The surgery itself: one chain is shorter by one entry, the others are as before. */
    method Bypass(idx: nat, prev: Entry?, entry: Entry, ghost j: nat)
      requires Shape() && At(idx, j, prev, entry)
      requires forall i, k :: 0 <= i < size && 0 <= k < |chains[i]| && chains[i][k] == prev ==> i == idx && k == j - 1
      modifies table, repr
      ensures entry.next == old(entry.next) && entry.val == old(entry.val)
      ensures forall i :: 0 <= i < size && i != idx ==> Linked(table[i], chains[i], rows[i])
      ensures Linked(table[idx], chains[idx][..j] + chains[idx][j + 1..], RemoveAt(rows[idx], j))
    {
      ghost var chain, row := chains[idx], rows[idx];
      assert entry == chain[j];
      assert Linked(table[idx], chain, row);
      label before:
      if prev != null {
        prev.next := entry.next;
      } else {
        table[idx] := entry.next;
      }
      forall i | 0 <= i < size && i != idx ensures Linked(table[i], chains[i], rows[i]) {
        assert old(Linked(table[i], chains[i], rows[i]));
      }
      forall k | 0 <= k < |chain| && k != j - 1 ensures chain[k].next == After(chain, k) {
        assert chains[idx][k] != prev;
      }
      RemoveLinked(table[idx], chain, row, j);
    }

    lemma PrevUnique(idx: nat, j: nat, prev: Entry?, entry: Entry)
      requires Valid() && At(idx, j, prev, entry)
      ensures forall i, k :: 0 <= i < size && 0 <= k < |chains[i]| && chains[i][k] == prev ==> i == idx && k == j - 1
    {
      hide Wf, Linked, Entries;
      if j > 0 { Unique(idx, j - 1); }
    }

    lemma LinkedWithout(idx: nat, j: nat)
      requires Valid() && idx < size && j < |chains[idx]|
      ensures Entries(chains[idx := chains[idx][..j] + chains[idx][j + 1..]]) == repr - {chains[idx][j]}
    {
      hide Wf, Linked, Entries;
      Unique(idx, j);
      EntriesWithout(chains, idx, j);
    }

    /** Takes one entry out of its chain and off the counters. */
    method Unlink(idx: nat, prev: Entry?, entry: Entry, ghost j: nat)
      requires Valid() && At(idx, j, prev, entry)
      modifies this`used, this`usedMemory, this`chains, this`rows, this`repr, table, repr
      ensures Valid() && Model() == Delete(old(Model()), entry.key)
      ensures chains == old(chains)[idx := old(chains)[idx][..j] + old(chains)[idx][j + 1..]]
      ensures rows == old(rows)[idx := RemoveAt(old(rows)[idx], j)]
      ensures entry.next == old(entry.next) && repr == old(repr) - {entry}
    {
      hide Wf, Delete, Bucket, Linked, RemoveAt, Entries, Dict.At;
      ghost var was := Model();
      AtEntry(idx, j, prev, entry);
      ghost var chains' := chains[idx := chains[idx][..j] + chains[idx][j + 1..]];
      ghost var rows' := rows[idx := RemoveAt(rows[idx], j)];
      LinkedWithout(idx, j);
      PrevUnique(idx, j, prev, entry);
      DeleteAt(was, idx, j);
      Bypass(idx, prev, entry, j);
      forall i | 0 <= i < size ensures Linked(table[i], chains'[i], rows'[i]) {}
      used, usedMemory := used - 1, usedMemory - entry.val.size;
      chains, rows, repr := chains', rows', repr - {entry};
    }

    lemma RowLength(i: nat)
      requires Shape() && i < size
      ensures |rows| == |chains| == size == table.Length && |rows[i]| == |chains[i]|
    {
      assert Linked(table[i], chains[i], rows[i]);
    }

    lemma EntryOf(i: nat, j: nat)
      requires Shape() && i < size && j < |chains[i]|
      ensures |rows[i]| == |chains[i]| && rows[i][j] == Item(chains[i][j].key, chains[i][j].val)
    {
      assert Linked(table[i], chains[i], rows[i]);
    }

    /** `dict_delete`. */
    method DictDelete(key: string) returns (ok: bool)
      requires Valid()
      modifies this, table, repr
      ensures Valid() && table == old(table) && repr <= old(repr)
      ensures Model() == Delete(old(Model()), key) && ok == old(Lookup(Model(), key)).Some?
    {
      hide Wf, Bucket, Entries;
      var idx, prev, entry, j := Find(key);
      if entry == null { return false; }
      Unlink(idx, prev, entry, j);
      ok := true;
    }

    /** Only the object of one entry changes. */
    method Overwrite(entry: Entry, o: Obj, ghost i: nat, ghost j: nat)
      requires Shape() && i < size && j < |chains[i]| && entry == chains[i][j]
      requires forall i', k :: 0 <= i' < size && 0 <= k < |chains[i']| && chains[i'][k] == entry ==> i' == i && k == j
      modifies entry`val
      ensures entry.val == o
      ensures forall k :: 0 <= k < size && k != i ==> Linked(table[k], chains[k], rows[k])
      ensures Linked(table[i], chains[i], rows[i][j := Item(entry.key, o)])
    {
      ghost var chain, row := chains[i], rows[i];
      assert Linked(table[i], chain, row);
      entry.val := o;
      forall k | 0 <= k < size && k != i ensures Linked(table[k], chains[k], rows[k]) {
        assert old(Linked(table[k], chains[k], rows[k]));
      }
      forall k | 0 <= k < |chain| && k != j ensures chain[k].val == row[k].obj {
        assert chains[i][k] != entry;
      }
    }

    /** The entry is the one linked under the key. */
    ghost predicate Holds(key: string, entry: Entry)
      requires Valid()
      reads this, table, repr
      ensures Holds(key, entry) ==> entry in repr
    {
      && Lookup(Model(), key).Some?
      && var i := Bucket(key, size); var j := IndexOf(rows[i], key);
         j < |chains[i]| && entry == chains[i][j]
    }

    /** Writes the object of an entry found under its key. */
    method SetVal(key: string, entry: Entry, o: Obj)
      requires Valid() && Holds(key, entry)
      modifies this`usedMemory, this`rows, entry`val
      ensures Valid() && Model() == Put(old(Model()), key, o)
      ensures entry.val == o
    {
      hide Wf, Bucket, Linked, IndexOf, Entries;
      ghost var was := Model();
      ghost var i := Bucket(key, size);
      ghost var j := IndexOf(rows[i], key);
      RowLength(i);
      Unique(i, j);
      EntryOf(i, j);
      var size' := entry.val.size;
      Overwrite(entry, o, i, j);
      usedMemory := usedMemory - size' + o.size;
      rows := rows[i := rows[i][j := Item(key, o)]];
      PutWf(was, key, o);
    }

    /** `dict_get`: deletes a stale entry, touches and returns a fresh one. */
    method DictGet(key: string, now: nat) returns (entry: Entry?)
      requires Valid()
      modifies this, table, repr
      ensures Valid() && table == old(table) && repr <= old(repr)
      ensures Model() == Get(old(Model()), key, now)
      ensures entry == null <==> old(Fetched(Model(), key, now)).None?
      ensures entry != null ==> entry.val == old(Fetched(Model(), key, now)).value
      ensures entry != null ==> Holds(key, entry)
    {
      hide Wf, Bucket, Entries;
      var idx, prev, e, j := Find(key);
      entry := e;
      if entry == null { return; }
      if entry.val.expire != 0 && entry.val.expire < now {
        var _ := DictDelete(key);
        return null;
      }
      ghost var row := rows[idx];
      AllIn(chains);
      SetVal(key, entry, entry.val.(access := now));
      IndexOfIs(rows[idx], key, j);
    }

    /** `dict_clear_expired`. */
    method DictClearExpired(now: nat)
      requires Valid()
      modifies this, table, repr
      ensures Valid() && table == old(table) && repr <= old(repr)
      ensures Model() == Sweep(old(Model()), now)
    {
      hide Wf, Linked, Fresh, RemoveAt, Delete, Entries;
      ghost var was := rows;
      var i := 0;
      while i < size
        invariant i <= size == old(size) && Valid() && table == old(table) && repr <= old(repr)
        invariant maxMemory == old(maxMemory) && |was| == size
        invariant forall k :: 0 <= k < size ==> rows[k] == if k < i then Fresh(was[k], now) else was[k]
      {
        SweepChain(i, now);
        i := i + 1;
      }
      SweepIs(old(Model()), Model(), now);
    }

    /** One bucket of the sweep: stale entries are unlinked, `prev` trails the survivors. */
    method SweepChain(i: nat, now: nat)
      requires Valid() && i < size
      modifies this`used, this`usedMemory, this`chains, this`rows, this`repr, table, repr
      ensures Valid() && repr <= old(repr)
      ensures rows == old(rows)[i := Fresh(old(rows)[i], now)]
    {
      hide Wf, Linked, Fresh, Delete, RemoveAt, Entries, Dict.Shape, Dict.At;
      RowLength(i);
      ghost var was := rows[i];
      var entry, prev := table[i], null;
      ghost var j, done := 0, 0;
      assert was[..0] == [] && was[0..] == was && [] + was == was;
      FreshEmpty(now);
      AtStart(i);
      while entry != null
        invariant Valid() && repr <= old(repr) && At(i, j, prev, entry) && done <= |was| && j == |Fresh(was[..done], now)|
        invariant rows == old(rows)[i := Fresh(was[..done], now) + was[done..]]
        decreases |was| - done
      {
        RowLength(i);
        AtEntry(i, j, prev, entry);
        FreshNext(was, done, now);
        UpdatedTwice(old(rows), i, rows[i], Fresh(was[..done + 1], now) + was[done + 1..]);
        if entry.val.expire != 0 && entry.val.expire < now {
          var next := entry.next;
          ghost var chain := chains[i];
          Unlink(i, prev, entry, j);
          RowLength(i);
          AtUnlinked(i, j, prev, next, chain);
          entry := next;
        } else {
          AtNext(i, j, prev, entry);
          prev, entry, j := entry, entry.next, j + 1;
        }
        done := done + 1;
      }
      AtEnd(i, j, prev);
      assert done == |was|;
      assert was[..done] == was && Fresh(was, now) + was[done..] == Fresh(was, now);
    }

    lemma AtStart(i: nat)
      requires Shape() && i < size
      ensures At(i, 0, null, table[i])
    {
      HeadOf(i);
    }

    lemma AtEntry(i: nat, j: nat, prev: Entry?, entry: Entry)
      requires Shape() && At(i, j, prev, entry)
      ensures i < |chains| == |rows| && j < |chains[i]| == |rows[i]|
      ensures entry == chains[i][j] && rows[i][j] == Item(entry.key, entry.val)
      ensures entry.next == After(chains[i], j) && prev == if j == 0 then null else chains[i][j - 1]
    {
      EntryOf(i, j);
      NextOf(i, j);
    }

    lemma AtNext(i: nat, j: nat, prev: Entry?, entry: Entry)
      requires Shape() && At(i, j, prev, entry)
      ensures At(i, j + 1, entry, entry.next)
    {
      NextOf(i, j);
    }

    lemma AtEnd(i: nat, j: nat, prev: Entry?)
      requires Shape() && At(i, j, prev, null)
      ensures j == |chains[i]| == |rows[i]|
    {
      RowLength(i);
    }

    lemma AtUnlinked(i: nat, j: nat, prev: Entry?, next: Entry?, chain: seq<Entry>)
      requires Shape() && i < size && j < |chain| && chains[i] == chain[..j] + chain[j + 1..]
      requires next == After(chain, j) && prev == if j == 0 then null else chain[j - 1]
      ensures At(i, j, prev, next)
    {}

    lemma HeadOf(i: nat)
      requires Shape() && i < size
      ensures table[i] == if chains[i] == [] then null else chains[i][0]
    {
      assert Linked(table[i], chains[i], rows[i]);
    }

    lemma NextOf(i: nat, j: nat)
      requires Shape() && i < size && j < |chains[i]|
      ensures chains[i][j].next == if j + 1 < |chains[i]| then chains[i][j + 1] else null
    {
      assert Linked(table[i], chains[i], rows[i]);
      assert chains[i][j].next == After(chains[i], j);
    }

    /** The scan for the entry with the least access time, with its predecessor and bucket. */
    method FindLru() returns (lru: Entry?, lruPrev: Entry?, lruIdx: nat, ghost lruJ: nat)
      requires Valid()
      ensures lruIdx < size && OldestSoFar(Flatten(rows), lru, lruPrev, lruIdx, lruJ)
    {
      hide Wf, Linked, Oldest, Flatten, Entries, Dict.OldestSoFar;
      PlacedDistinct(Model());
      lru, lruPrev, lruIdx, lruJ := null, null, 0, 0;
      var oldest := UINT64_MAX;
      var i := 0;
      NoneSeen();
      while i < size
        invariant i <= size && lruIdx < size
        invariant OldestSoFar(Flatten(rows[..i]), lru, lruPrev, lruIdx, lruJ)
        invariant oldest == if lru == null then UINT64_MAX else lru.val.access
      {
        oldest, lru, lruPrev, lruIdx, lruJ := ScanChain(i, oldest, lru, lruPrev, lruIdx, lruJ, Flatten(rows[..i]));
        FlattenNext(rows, i);
        i := i + 1;
      }
      assert rows[..size] == rows;
    }

    lemma NoneSeen()
      requires Valid()
      ensures size > 0 && OldestSoFar(Flatten(rows[..0]), null, null, 0, 0)
    {
      hide Wf;
      PlacedDistinct(Model());
      FlattenNone(rows);
    }

    /** One bucket of the scan. */
    method ScanChain(i: nat, oldest: int, lru: Entry?, lruPrev: Entry?, lruIdx: nat, ghost lruJ: nat, ghost seen: seq<Item>)
      returns (oldest': int, lru': Entry?, lruPrev': Entry?, lruIdx': nat, ghost lruJ': nat)
      requires Valid() && i < size && lruIdx < size
      requires OldestSoFar(seen, lru, lruPrev, lruIdx, lruJ)
      requires oldest == if lru == null then UINT64_MAX else lru.val.access
      ensures lruIdx' < size && OldestSoFar(seen + rows[i], lru', lruPrev', lruIdx', lruJ')
      ensures oldest' == if lru' == null then UINT64_MAX else lru'.val.access
    {
      hide Wf, Linked, Oldest, Entries;
      oldest', lru', lruPrev', lruIdx', lruJ' := oldest, lru, lruPrev, lruIdx, lruJ;
      var entry, prev := table[i], null;
      ghost var j := 0;
      RowLength(i);
      HeadOf(i);
      assert seen + rows[i][..0] == seen;
      while entry != null
        invariant At(i, j, prev, entry) && lruIdx' < size && j <= |rows[i]|
        invariant OldestSoFar(seen + rows[i][..j], lru', lruPrev', lruIdx', lruJ')
        invariant oldest' == if lru' == null then UINT64_MAX else lru'.val.access
        decreases |rows[i]| - j
      {
        EntryOf(i, j);
        NextOf(i, j);
        OldestNext(seen + rows[i][..j], rows[i][j]);
        assert seen + rows[i][..j + 1] == (seen + rows[i][..j]) + [rows[i][j]];
        if entry.val.access < oldest' {
          oldest' := entry.val.access;
          lru', lruPrev', lruIdx', lruJ' := entry, prev, i, j;
        }
        prev, entry, j := entry, entry.next, j + 1;
      }
      assert rows[i][..j] == rows[i];
    }

    /** The pointers mark the oldest of the entries seen; null when there is none. */
    ghost predicate OldestSoFar(seen: seq<Item>, lru: Entry?, lruPrev: Entry?, i: nat, j: nat)
      requires Shape() && i < size
      reads this, table, repr
    {
      if lru == null then Oldest(seen) == |seen|
      else
        && At(i, j, lruPrev, lru)
        && Oldest(seen) < |seen| && seen[Oldest(seen)] == Item(lru.key, lru.val)
    }

    /** `dict_evict_lru_if_needed`, recursive as in the source. */
    method DictEvict()
      requires Valid()
      modifies this`used, this`usedMemory, this`chains, this`rows, this`repr, table, repr
      ensures Valid() && repr <= old(repr) && Model() == Evict(old(Model()))
      decreases if used >= 0 then used else 0
    {
      hide Wf, Linked, Oldest, Flatten, Delete, Entries;
      ghost var was := Model();
      UsedNat(was);
      EvictStep(was);
      if maxMemory == 0 || usedMemory <= maxMemory { return; }
      var lru, lruPrev, lruIdx, lruJ := FindLru();
      if lru != null {
        Unlink(lruIdx, lruPrev, lru, lruJ);
        UsedNat(Model());
        DictEvict();
      }
    }

    /** `dict_resize`: every entry is relinked, in scan order, at the head of its new chain;
        the linked entries are the same objects as before. */
    method DictResize()
      requires Valid()
      modifies this, repr
      ensures Valid() && fresh(table) && repr == old(repr) && Entries(chains) == old(Entries(chains))
      ensures Model() == Resize(old(Model()))
    {
      hide Wf, Linked, Flatten, Bucket, Relink, Hash, And, Entries, Dict.Waiting, Dict.NewShape;
      assert size >= 4 by { PlacedDistinct(Model()); }
      AllApart();
      var newSize := size * 2;
      var newTable := new Entry?[newSize](_ => null);
      ghost var newChains: seq<seq<Entry>> := seq(newSize, _ => []);
      ghost var moved: set<Entry> := {};
      FlattenNone(rows);
      NothingMoved(newTable);
      AllWaiting();
      AllIn(chains);
      var i := 0;
      while i < size
        invariant i <= size && NewShape(newTable, newChains, Relink(Flatten(rows[..i]), newSize), moved)
        invariant moved == Entries(chains[..i]) && moved <= repr && newTable.Length == 2 * size
        invariant forall k :: i <= k < size ==> Waiting(table[k], chains[k], rows[k], moved)
        modifies newTable, repr
      {
        moved, newChains := MoveChain(newTable, newChains, i, moved);
        FlattenNext(rows, i);
        EntriesUpTo(chains, i);
        i := i + 1;
      }
      assert rows[..size] == rows && chains[..size] == chains;
      Adopt(newTable, newChains, moved);
    }

    lemma NothingMoved(newTable: array<Entry?>)
      requires newTable.Length > 0 && forall b :: 0 <= b < newTable.Length ==> newTable[b] == null
      ensures NewShape(newTable, seq(newTable.Length, _ => []), Relink([], newTable.Length), {})
      ensures Entries(chains[..0]) == {}
    {
      hide Linked, Entries, Relink;
      RelinkNone(newTable.Length);
      NoEntries(newTable.Length);
      NoEntries(0);
      assert chains[..0] == seq(0, _ => []);
      LinkedNone();
    }

    lemma AllWaiting()
      requires Shape()
      ensures forall k :: 0 <= k < size ==> Waiting(table[k], chains[k], rows[k], {})
    {}

    /** The end of the resize: the new table takes the place of the old one. */
    method Adopt(newTable: array<Entry?>, ghost newChains: seq<seq<Entry>>, ghost moved: set<Entry>)
      requires Wf(Model()) && size == |rows| && newTable.Length == 2 * size && moved == repr
      requires NewShape(newTable, newChains, Relink(Flatten(rows), 2 * size), moved)
      modifies this`table, this`size, this`mask, this`rows, this`chains
      ensures Valid() && table == newTable && Model() == Resize(old(Model()))
    {
      hide Wf, Linked, Flatten, Relink, Entries;
      ResizeWf(Model());
      rows, chains := Relink(Flatten(rows), 2 * size), newChains;
      table, size, mask := newTable, 2 * size, 2 * size - 1;
    }

    /** `dict_add`. */
    method DictAdd(key: string, val: Obj, now: nat)
      requires Valid()
      modifies this, table, repr
      ensures Valid() && (table == old(table) || fresh(table)) && fresh(repr - old(repr))
      ensures Model() == Add(old(Model()), key, val, now)
    {
      hide Wf, Linked, Bucket, IndexOf, Resize, Put, Insert, Evict, Entries;
      ghost var was := Model();
      PlacedDistinct(was);
      if used >= size {
        DictResize();
      }
      ghost var t1 := Model();
      PlacedDistinct(t1);
      AddIs(was, key, val, now);
      var idx, prev, entry, j := Find(key);
      var o := val.(access := now);
      if entry != null {
        RowLength(idx);
        FoundAt(t1, key);
        AllIn(chains);
        SetVal(key, entry, o);
      } else {
        RowLength(idx);
        FoundAt(t1, key);
        Prepend(key, o, idx);
      }
      DictEvict();
    }

    /** Links a new entry at the head of its bucket. */
    method Prepend(key: string, o: Obj, idx: nat)
      requires Valid() && idx == Bucket(key, size) && Lookup(Model(), key).None? && used < size
      modifies this, table
      ensures Valid() && table == old(table) && fresh(repr - old(repr))
      ensures Model() == Insert(old(Model()), key, o)
    {
      hide Wf, Linked, Bucket, Lookup, Entries;
      ghost var was := Model();
      var entry := new Entry(key, o, table[idx]);
      ghost var chain, row := chains[idx], rows[idx];
      EntriesWith(chains, idx, entry);
      assert Linked(entry.next, chain, row);
      table[idx] := entry;
      LinkedPush(entry, chain, row);
      forall k | 0 <= k < size && k != idx ensures Linked(table[k], chains[k], rows[k]) {
        assert old(Linked(table[k], chains[k], rows[k]));
      }
      used, usedMemory := used + 1, usedMemory + o.size;
      chains, rows := chains[idx := [entry] + chain], rows[idx := [Item(key, o)] + row];
      repr := repr + {entry};
      InsertWf(was, key, o);
    }

    /** One old bucket of the resize. */
    method MoveChain(newTable: array<Entry?>, ghost newChains: seq<seq<Entry>>, i: nat, ghost moved: set<Entry>)
      returns (ghost moved': set<Entry>, ghost newChains': seq<seq<Entry>>)
      requires |rows| == |chains| == size == table.Length && i < size && newTable != table && newTable.Length == 2 * size
      requires moved <= repr && Apart(chains)
      requires forall k, j :: 0 <= k < size && 0 <= j < |chains[k]| ==> chains[k][j] in repr
      requires NewShape(newTable, newChains, Relink(Flatten(rows[..i]), 2 * size), moved)
      requires forall k :: i <= k < size ==> Waiting(table[k], chains[k], rows[k], moved)
      modifies newTable, repr
      ensures moved' <= repr && moved' == moved + Members(chains[i])
      ensures NewShape(newTable, newChains', Relink(Flatten(rows[..i]) + rows[i], 2 * size), moved')
      ensures forall k :: i < k < size ==> Waiting(table[k], chains[k], rows[k], moved')
    {
      hide Linked, Flatten, Relink, Hash, And, Entries, Members, Dict.NewShape;
      newChains', moved' := newChains, moved;
      var entry := table[i];
      ghost var j := 0;
      ghost var before := Flatten(rows[..i]);
      assert Waiting(table[i], chains[i], rows[i], moved);
      assert chains[i][0..] == chains[i] && rows[i][0..] == rows[i] && before + rows[i][..0] == before;
      assert Members(chains[i][..0]) == {} by { NoMembers(); }
      while entry != null
        invariant j <= |rows[i]| && j <= |chains[i]|
        invariant moved' == moved + Members(chains[i][..j]) && moved' <= repr
        invariant Waiting(entry, chains[i][j..], rows[i][j..], moved')
        invariant NewShape(newTable, newChains', Relink(before + rows[i][..j], 2 * size), moved')
        invariant forall k :: i < k < size ==> Waiting(table[k], chains[k], rows[k], moved')
        decreases |rows[i]| - j
      {
        LinkedPop(entry, chains[i][j..], rows[i][j..]);
        OneFurther(chains[i], rows[i], before, j);
        var next := entry.next;
        assert Waiting(next, chains[i][j + 1..], rows[i][j + 1..], moved' + {entry});
        newChains' := MoveEntry(newTable, entry, newChains', before + rows[i][..j], moved');
        moved' := moved' + {entry};
        entry := next;
        j := j + 1;
      }
      LinkedEnd(chains[i][j..], rows[i][j..]);
      assert rows[i][..j] == rows[i] && chains[i][..j] == chains[i];
    }

    /** Puts one entry at the head of its new chain. */
    method MoveEntry(newTable: array<Entry?>, entry: Entry, ghost newChains: seq<seq<Entry>>,
                     ghost seen: seq<Item>, ghost moved: set<Entry>)
      returns (ghost newChains': seq<seq<Entry>>)
      requires newTable.Length > 0 && entry !in moved
      requires NewShape(newTable, newChains, Relink(seen, newTable.Length), moved)
      modifies newTable, entry`next
      ensures NewShape(newTable, newChains', Relink(seen + [Item(entry.key, entry.val)], newTable.Length), moved + {entry})
    {
      hide Linked, Relink, Hash, And, Entries;
      AllIn(newChains);
      EntriesWith(newChains, Bucket(entry.key, newTable.Length), entry);
      var hash := DictHash(entry.key);
      var idx := And(hash, newTable.Length - 1);
      assert idx == Bucket(entry.key, newTable.Length);
      ghost var newRows := Relink(seen, newTable.Length);
      RelinkNext(seen, Item(entry.key, entry.val), newTable.Length);
      label before:
      entry.next := newTable[idx];
      newTable[idx] := entry;
      newChains' := newChains[idx := [entry] + newChains[idx]];
      assert Linked(entry.next, newChains[idx], newRows[idx]) by { assert old(Linked(newTable[idx], newChains[idx], newRows[idx])); }
      LinkedPush(entry, newChains[idx], newRows[idx]);
      forall b | 0 <= b < newTable.Length && b != idx ensures Linked(newTable[b], newChains[b], newRows[b]) {
        assert old(Linked(newTable[b], newChains[b], newRows[b]));
      }
    }

    /** A chain not yet relinked. */
    ghost predicate Waiting(head: Entry?, chain: seq<Entry>, row: seq<Item>, moved: set<Entry>)
      reads chain
    {
      Linked(head, chain, row) && forall j :: 0 <= j < |chain| ==> chain[j] !in moved
    }

    /** The new table holds the new rows on relinked entries. */
    ghost predicate NewShape(newTable: array<Entry?>, newChains: seq<seq<Entry>>, newRows: seq<seq<Item>>, moved: set<Entry>)
      reads newTable, moved
    {
      && |newRows| == |newChains| == newTable.Length
      && moved == Entries(newChains)
      && (forall b :: 0 <= b < newTable.Length ==> Linked(newTable[b], newChains[b], newRows[b]))
    }
  }

  lemma OneFurther(chain: seq<Entry>, row: seq<Item>, before: seq<Item>, j: nat)
    requires j < |chain| && j < |row|
    ensures chain[j..][0] == chain[j] && chain[j..][1..] == chain[j + 1..]
    ensures row[j..][0] == row[j] && row[j..][1..] == row[j + 1..]
    ensures before + row[..j + 1] == (before + row[..j]) + [row[j]]
    ensures Members(chain[..j + 1]) == Members(chain[..j]) + {chain[j]}
  {
    assert chain[..j + 1] == chain[..j] + [chain[j]];
  }

  lemma UpdatedTwice(rows: seq<seq<Item>>, i: nat, first: seq<Item>, second: seq<Item>)
    requires i < |rows|
    ensures rows[i := first][i := second] == rows[i := second]
  {}

  lemma PlacedDistinct(t: Table)
    requires Wf(t)
    ensures |t.rows| >= 4 && Placed(t.rows) && DistinctRows(t.rows)
  {}

  lemma InsertWf(t: Table, key: string, o: Obj)
    requires Wf(t) && Lookup(t, key).None? && t.used < |t.rows|
    ensures Wf(Insert(t, key, o))
  {
    InsertLaw(t, key, o);
  }

  lemma FoundAt(t: Table, key: string)
    requires |t.rows| > 0
    ensures Lookup(t, key).Some? <==> IndexOf(t.rows[Bucket(key, |t.rows|)], key) < |t.rows[Bucket(key, |t.rows|)]|
  {}

  lemma AddIs(t: Table, key: string, o: Obj, now: nat)
    requires Wf(t)
    ensures var t1 := if t.used >= |t.rows| then Resize(t) else t;
      var o' := o.(access := now);
      && Wf(t1) && |t1.rows| > 0 && t1.used < |t1.rows|
      && var t2 := if Lookup(t1, key).Some? then Put(t1, key, o') else Insert(t1, key, o');
         Wf(t2) && Add(t, key, o, now) == Evict(t2)
  {
    hide Evict, Contents, Flatten, Bucket, Weight;
    ResizeLaw(t);
    StoreLaw(t, key, o.(access := now));
  }

  lemma ResizeWf(t: Table)
    requires Wf(t)
    ensures Wf(Resize(t))
  {
    ResizeLaw(t);
  }

  lemma PutWf(t: Table, key: string, o: Obj)
    requires Wf(t) && Lookup(t, key).Some?
    ensures Wf(Put(t, key, o))
  {
    PutLaw(t, key, o);
  }

  /** The entry at position (i, j) is the one a lookup of its key finds. */
  lemma DeleteAt(t: Table, i: nat, j: nat)
    requires Wf(t) && i < |t.rows| && j < |t.rows[i]|
    ensures var it := t.rows[i][j];
      Bucket(it.key, |t.rows|) == i && IndexOf(t.rows[i], it.key) == j
    ensures Wf(Delete(t, t.rows[i][j].key))
    ensures Delete(t, t.rows[i][j].key) ==
      t.(rows := t.rows[i := RemoveAt(t.rows[i], j)], used := t.used - 1, memory := t.memory - t.rows[i][j].obj.size)
  {
    hide Bucket, Contents, Flatten, Weight, IsPow2;
    IndexOfIs(t.rows[i], t.rows[i][j].key, j);
    DeleteLaw(t, t.rows[i][j].key);
  }

  /** The row half-way through its sweep, one entry further. */
  lemma FreshNext(row: seq<Item>, n: nat, now: nat)
    requires n < |row|
    ensures var f, f' := Fresh(row[..n], now), Fresh(row[..n + 1], now);
      && (f + row[n..])[|f|] == row[n]
      && if Expired(row[n].obj, now) then |f'| == |f| && RemoveAt(f + row[n..], |f|) == f' + row[n + 1..]
         else |f'| == |f| + 1 && f + row[n..] == f' + row[n + 1..]
  {
    assert row[..n + 1][..n] == row[..n];
  }

  /** A well-formed table whose rows are the swept rows is the swept table. */
  lemma SweepIs(t: Table, t': Table, now: nat)
    requires Wf(t) && Wf(t') && t'.limit == t.limit && |t'.rows| == |t.rows|
    requires forall k :: 0 <= k < |t.rows| ==> t'.rows[k] == Fresh(t.rows[k], now)
    ensures t' == Sweep(t, now)
  {
    hide Fresh, Flatten, Weight;
    assert t'.rows == Sweep(t, now).rows;
  }

  lemma OldestNext(seen: seq<Item>, it: Item)
    ensures var k, k' := Oldest(seen), Oldest(seen + [it]);
      k' == if it.obj.access < (if k < |seen| then seen[k].obj.access else UINT64_MAX) then |seen|
            else if k < |seen| then k else |seen| + 1
  {
    assert (seen + [it])[..|seen|] == seen;
  }

  lemma FlattenNone(rows: seq<seq<Item>>)
    ensures Flatten(rows[..0]) == [] && Oldest([]) == 0
  {}

  lemma FlattenNext(rows: seq<seq<Item>>, i: nat)
    requires i < |rows|
    ensures Flatten(rows[..i + 1]) == Flatten(rows[..i]) + rows[i]
  {
    assert rows[..i + 1][..i] == rows[..i];
  }

  lemma EvictStep(t: Table)
    requires Wf(t)
    ensures !OverLimit(t) ==> Evict(t) == t
    ensures OverLimit(t) ==> var items := Flatten(t.rows); var k := Oldest(items);
      if k == |items| then Evict(t) == t
      else Wf(Delete(t, items[k].key)) && Evict(t) == Evict(Delete(t, items[k].key)) && Delete(t, items[k].key).used == t.used - 1
  {
    hide Wf, Delete, Contents, Flatten, Oldest;
    var items := Flatten(t.rows);
    var k := Oldest(items);
    if OverLimit(t) && k < |items| {
      VictimStored(t, k);
      DeleteLaw(t, items[k].key);
    }
  }

  lemma RelinkNone(size: nat)
    requires size > 0
    ensures Relink([], size) == Empty(size)
  {}

  lemma LinkedNone()
    ensures Linked(null, [], [])
  {}

  lemma LinkedPop(head: Entry, chain: seq<Entry>, row: seq<Item>)
    requires Linked(head, chain, row)
    ensures chain != [] && row != [] && head == chain[0] && row[0] == Item(head.key, head.val)
    ensures Linked(head.next, chain[1..], row[1..])
  {
    var c, r := chain[1..], row[1..];
    assert chain[0].next == After(chain, 0);
    forall j | 0 <= j < |c| ensures c[j].key == r[j].key && c[j].val == r[j].obj && c[j].next == After(c, j) {
      assert chain[j + 1].next == After(chain, j + 1);
    }
  }

  lemma LinkedPush(head: Entry, chain: seq<Entry>, row: seq<Item>)
    requires Linked(head.next, chain, row)
    ensures Linked(head, [head] + chain, [Item(head.key, head.val)] + row)
  {
    var c, r := [head] + chain, [Item(head.key, head.val)] + row;
    forall j | 0 <= j < |c| ensures c[j].key == r[j].key && c[j].val == r[j].obj && c[j].next == After(c, j) {
      if j > 0 { assert chain[j - 1].next == After(chain, j - 1); }
    }
  }

  lemma LinkedEnd(chain: seq<Entry>, row: seq<Item>)
    requires Linked(null, chain, row)
    ensures chain == [] && row == []
  {}

  lemma RelinkNext(seen: seq<Item>, it: Item, size: nat)
    requires size > 0
    ensures Relink(seen + [it], size) == Push(Relink(seen, size), it)
  {
    assert (seen + [it])[..|seen|] == seen;
  }
}
