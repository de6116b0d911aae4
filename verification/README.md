# CrimsonCache, verified

A Dafny model of CrimsonCache, a small Redis-like server written in C: its hash
table with expiry and LRU eviction, its command tokenizer and executor with
transactions, its RDB snapshots, its primary-to-replica replication, and its
pub/sub channels with the client registry.

    dafny verify dfyconfig.toml

## How it is built

Each part has two layers. A layer of datatypes, functions and lemmas says what the
part does and proves what that is good for. A layer of classes and methods has the
C code's own form: arrays, linked nodes, cursors and loops that change things in place.
Every method of the second layer is proved to do exactly what a function of the
first says, so the lemmas about the function hold of the method.

| files | part |
|---|---|
| `Text`, `Seqs` | C strings, `strtoll`, 64-bit integers; first occurrences in sequences |
| `Tokenizer`, `SyncLine` | the three-state scan in place; when a line built for a replica reads back |
| `Lines` | CRLF lines out of arbitrary reads; the replica's buffer |
| `HashTable`, `TableLaws`, `Eviction` | the table as rows of entries, its invariant, its relation to a map |
| `Dict` | the table as an array of linked chains (`prev`/`next` surgery, relinking, victims) |
| `Commands`, `Handlers` | SET, GET, DEL, EXISTS, EXPIRE, TTL, INCR as functions and as methods |
| `Expiry`, `KeyCommands`, `Counter` | sweeps cannot be seen; what SET, GET, EXPIRE, DEL and INCR do, by name and in numbers |
| `Snapshot`, `Persistence` | the RDB image and its reader; writing to a failing disk, reading with a cursor |
| `PubSub`, `Replication` | channels and subscribers; replica list, feed and synchronisation |
| `Executor`, `Transactions`, `Lifecycle`, `ServerCommands` | the server as a state machine; MULTI to EXEC; whole runs; what each line does, by name |
| `Server` | the same server as shared objects changed in place |
| `KeyValues`, `Convergence` | what lines do to the key-to-value map; a replica catches up and stays equal |

The clock is an argument. Sockets are byte sequences that are appended to. The fate of
each system call (a full, blocked or failed write, a failed `fopen` or `rename`, a
failed `connect`) is a parameter. A command is one atomic step.

## Main results

- **The table is a map.** With any memory limit, every run of add, get, delete, resize and
  sweep answers and changes as a map with expiry times does that loses the evicted keys
  (`Eviction.RunRefines`), and stays within the limit (`Eviction.RunWithin`); the linked,
  in-place table does what the abstract one does (`DictHeap`); eviction is least recently
  used, sufficient and minimal (`Eviction.EvictPolicy`).
- **Keys live as long as they were told to**: SET with EX or PX, then GET at any later time
  (`KeyCommands.SetThenGet`).
- **Expiry cannot be observed.** Sweeps inserted anywhere in a run change no reply, except
  the number DEL gives (`Expiry.SweepsInvisible`), for which the exact condition is proved
  (`Expiry.DelCount`).
- **The tokenizer** run in place, writing NULs over what it has read, finds the tokens of
  the line it was given (`Tokenizer.Tokenize`); a synchronisation line gives back key and
  value if and only if they have the right characters (`SyncLine.SetLineReadBack`).
- **Snapshots round-trip** exactly, for expired entries too (`Snapshot.SnapshotRoundTrip`);
  no truncation loads (`Snapshot.TruncatedSnapshot`); when a save succeeds is exact, and it is
  all or nothing if and only if the last flush is complete (`Persistence.Save`); saving
  composes with the next start (`Persistence.SaveAndRestart`).
- **A transaction is sequential execution**: MULTI, any lines and EXEC leave the same world and
  send every socket the same bytes as the lines alone, after OK, QUEUED per line and the
  `*N` header (`Transactions.TransactionRuns`); DISCARD leaves nothing
  (`Transactions.TransactionDiscarded`); the mutual recursion of executor and EXEC
  terminates because no queue can hold a transaction command (`Executor.Execute`).
- **Line reassembly does not depend on the reads** (`Lines.ChunksIrrelevant`, `Lines.ReadAll`).
- **Every world reachable from a start with any snapshot file is in order**: table, queues,
  sockets, channels, subscribers (`Lifecycle.Reachable`), and PUBLISH reaches exactly the subscribers
  (`Lifecycle.PublishExact`).
- **Replicas converge**: an empty replica that joins at any moment and executes whatever it
  puts together from what it was sent holds the primary's map (`Convergence.Converges`).

## Where the code and its documentation differ

The model follows the code.

- `README.md:30` promises crash-safe atomic files. The result of `fclose` is not looked at
  (`src/persistence.c:127-131`), so an image whose last flush failed is renamed over the
  old one. `Persistence.Save` has the exact condition.
- The header of a snapshot counts every stored entry, expired or not
  (`src/persistence.c:70`), while expired ones are not written. Loading then restores every
  live entry and still reports failure (`Snapshot.SnapshotRoundTrip`).
- `README.md:188` promises proper handling of quoted strings. The synchronisation never quotes
  a key, nor a value that is empty or has only other white space, and escapes nothing
  (`SyncLine.SetLineReadBack`).
- A CRLF inside one client buffer separates words on the primary and commands on a replica
  (`Convergence.InteriorCrlfDiverges` is a concrete pair of different maps).
- `repl_offset` is advanced by the distance from the start of the buffer, once per line
  (`src/main.c:156`); it counts bytes only while a read completes at most one line
  (`Lines.OffsetCountsBytes`).
- DEL counts keys that have expired but have not been swept (`Expiry.DelCount`).
- An empty bulk string lacks its closing CRLF (`src/commands.c:334-337`); DISCARD replies OK
  twice; UNSUBSCRIBE always reports 0 remaining subscriptions; REPLICAOF changes the role
  before it tries to connect; TTL tests `<=` where the table tests `<`; a client for whom
  the registry has no slot stays connected but is unknown to it; a write that would block is
  dropped although the log says it will be retried (`src/replication.c:329-330`). The functions
  of `Commands`, `Executor`, `PubSub`, `Replication` and `Lifecycle` do the same.
- `README.md:139` documents SET with EX only; the code also takes PX.

## Model

| member | source | states |
|---|---|---|
| Text.DecimalRoundTrip | src/commands.c:604-619 | `strtoll` reads every 64-bit number back from the text `%lld` prints, and leaves nothing unread |
| Tokenizer.Tokenize | src/commands.c:79-196 | the scan, changing its buffer in place, yields the tokens of what the buffer held; no written NUL disturbs a later read, and the token array has room at every store |
| Tokenizer.WordStops | src/commands.c:121-184 | a word that ends at white space or at the end of input is one token, and the rest is read as if alone |
| Tokenizer.QuoteStops | src/commands.c:146-187 | a quoted token ends at the first `"` not after a backslash; one that never closes is dropped with all that follows |
| Tokenizer.CutWord | src/commands.c:122-137 | ending a word changes one character, and the copied string is exactly the word |
| Tokenizer.StrLen | src/commands.c:85 | the length is that of the part before the first NUL |
| Tokenizer.CutEol | src/commands.c:84-90 | one closing CRLF, or else one LF, is cut from the line and nothing else |
| Tokenizer.StripEolIs | src/commands.c:84-90 | what is cut is one closing CRLF, or else one LF, and nothing from any other line |
| Tokenizer.TrailingSpace | src/commands.c:79-196 | white space after a line never changes its tokens, even inside an open quote |
| Tokenizer.EolIrrelevant | src/commands.c:84-90 | adding or cutting CRLF or LF never changes the tokens |
| SyncLine.SetLineReadBack | src/replication.c:80-93 | the SET line for an entry tokenizes to SET, its key and its value if and only if the key is not empty, has no white space and no quote in front, and the value either has a backslash before each of its quotes and none at its end, or has no quote, is not empty, and, if it has white space, has a space or tab and no backslash at its end |
| SyncLine.ValueAlone | src/replication.c:81-93 | a value as sent is read back if and only if it meets those conditions on its characters |
| SyncLine.QuotedAlone | src/replication.c:84-87 | a quoted value is read back if and only if no quote in it closes it early and it does not end in a backslash |
| SyncLine.TokenShape | src/commands.c:79-196 | every token is either a plain word or text that can stand between quotes |
| SyncLine.BadKey | src/replication.c:84-92 | a key that is empty, has white space or starts with a quote is never read back, whatever the value |
| Lines.ChunksIrrelevant | src/main.c:129-165 | the lines and the leftover of a session are those of the whole stream, however it was split into reads, even between CR and LF |
| Lines.SplitAppend | src/main.c:140-165 | lines found in a prefix stay, and the rest is found in its leftover followed by what comes |
| Lines.SplitJoins | src/main.c:140-165 | lines, each with its CRLF, and rest are the stream, and none of them has a CRLF inside |
| Lines.NonEmptyExact | src/main.c:143-150 | every line but the empty ones is executed, as often as it comes |
| Lines.AlwaysRoom | src/main.c:129-130 | if every line of the stream fits the buffer, there is room for another byte before every read |
| Lines.OffsetCountsBytes | src/main.c:153-157 | the offset advances by the bytes consumed if and only if the read completed at most one line |
| Lines.LineReader.Receive | src/main.c:129-165 | one read executes the completed non-empty lines in order and keeps exactly the unterminated rest |
| Lines.LineReader.FindLineEnd | src/main.c:140 | the next CRLF, and none before it |
| Lines.LineReader.CutLine | src/main.c:140-153 | the line is what lies before its CRLF, and the bytes after it are untouched |
| Lines.LineReader.KeepRest | src/main.c:159-165 | the unterminated rest moves to the front |
| Lines.ReadAll | src/main.c:116-201 | over any sequence of reads that fit, the executed lines are the non-empty lines of the whole stream |
| HashTable.DictHash | src/dict.c:9-17 | the loop computes djb2 modulo 2^64 |
| HashTable.HashValues | src/dict.c:9-17 | concrete hashes, of a byte above 127 too |
| HashTable.MaskIsMod | src/dict.c:84-90 | masking with a power of two less one is the remainder by that power |
| HashTable.BucketDoubles | src/dict.c:208-237 | doubling the table sends a key to its old bucket or to that plus the old size |
| HashTable.InitialSize | src/dict.c:29-37 | a power of two, at least four and at least what was asked for, less than twice that |
| HashTable.LookupContents | src/dict.c:140-165 | searching only the bucket of a key's hash finds it if and only if the table holds it |
| HashTable.SetRowWf | src/dict.c:80-205 | replacing one chain by one with distinct, well placed keys keeps the whole invariant, counters included |
| TableLaws.DeleteLaw | src/dict.c:168-205 | deletion keeps the invariant and removes that key alone |
| TableLaws.PutLaw | src/dict.c:94-110 | replacing an object changes that key's value, not the count, and the memory by the difference of sizes |
| TableLaws.InsertLaw | src/dict.c:115-132 | adding a new key keeps the invariant, adds that key alone, and counts it and its size once |
| TableLaws.ResizeLaw | src/dict.c:208-237 | resizing keeps every entry, the count and the memory, and moves each to its old bucket or that plus the old size |
| TableLaws.RelinkLaw | src/dict.c:216-231 | pushing entries one by one into new chains loses and duplicates none |
| TableLaws.SweepLaw | src/dict.c:240-277 | a sweep keeps the invariant and leaves exactly the unexpired entries, in order |
| TableLaws.FlattenContents | src/dict.c:240-277 | walking all chains meets every stored entry once |
| TableLaws.EmptyLaw | src/dict.c:29-52 | a new table meets the invariant and is empty |
| Eviction.EvictRemoves | src/dict.c:280-329 | eviction removes exactly the victims and accounts for their sizes |
| Eviction.EvictPolicy | src/dict.c:280-329 | memory ends within the limit; no victim was used later than a survivor; with the last victim back the limit is exceeded |
| Eviction.NothingLeft | src/dict.c:286-308 | the search comes back empty-handed over the limit only if some access time is the maximal one |
| Eviction.StoreLaw | src/dict.c:80-132 | storing, with its resize, sets that key and accounts for the replaced object |
| Eviction.AddLaw | src/dict.c:80-137 | without a limit an addition is a map update with a fresh access time; with one, memory ends within it |
| Eviction.GetLaw | src/dict.c:140-165 | a lookup finds an unexpired entry and touches it, or removes an expired one and finds nothing |
| Eviction.StepRefines | src/dict.c:80-277 | with any limit, each call returns and changes what the map operation with expiry does, but for the keys it evicts; none without a limit |
| Eviction.RunRefines | src/dict.c:80-329 | with any limit, every run of calls keeps counters, placement and size, and returns and ends as the map that loses the evicted keys does |
| Eviction.StepWithin | src/dict.c:80-329 | an addition ends within the memory limit, and no other call uses more memory |
| Eviction.RunWithin | src/dict.c:80-329 | over every run, a table within its limit stays within it, and one addition brings any other back |
| DictHeap.RemoveLinked | src/dict.c:178-193 | bypassing one node leaves a chain of exactly the others |
| DictHeap.Dict.constructor | src/dict.c:29-52 | a valid empty table without a limit, of the rounded-up size |
| DictHeap.Dict.Find | src/dict.c:168-185 | the node of the key and its predecessor in the key's bucket, or none |
| DictHeap.Dict.Bypass | src/dict.c:178-183 | the `prev`/`next` surgery removes that node from its chain and changes no other chain |
| DictHeap.Dict.Unlink | src/dict.c:178-196 | with the counters, unlinking is the deletion of the key; that node and no other is linked no more |
| DictHeap.Dict.DictDelete | src/dict.c:168-205 | deletes as specified, and reports whether the key was there |
| DictHeap.Dict.SetVal | src/dict.c:93-110 | replacing a node's object is the update of its key, memory included |
| DictHeap.Dict.DictGet | src/dict.c:140-165 | the unexpired entry with its access time set, or NULL with an expired entry gone |
| DictHeap.Dict.DictAdd | src/dict.c:80-137 | resize, then overwrite or insert, then evict, as specified |
| DictHeap.Dict.Prepend | src/dict.c:115-132 | a new node at the head of its chain |
| DictHeap.Dict.DictResize | src/dict.c:208-237 | relinks the same nodes into a new array: the set of linked nodes is exactly what it was |
| DictHeap.Dict.MoveChain | src/dict.c:216-231 | exactly the nodes of one old chain join the new chains, and the chains still waiting stay intact |
| DictHeap.Dict.MoveEntry | src/dict.c:219-227 | one node becomes the head of its new chain |
| DictHeap.Dict.DictClearExpired | src/dict.c:240-277 | removes exactly the expired entries |
| DictHeap.Dict.SweepChain | src/dict.c:242-276 | one chain loses its expired nodes while it is walked |
| DictHeap.Dict.FindLru | src/dict.c:286-302 | the first least recently used node in chain order, with its predecessor and bucket |
| DictHeap.Dict.DictEvict | src/dict.c:280-329 | terminates, and removes the specified victims one by one |
| Commands.HandleKeeps | src/commands.c:356-649 | every key command keeps the table's invariant and limit |
| Commands.DeleteAllKeeps | src/commands.c:414-425 | DEL removes exactly the named keys and counts those that were stored, once each |
| Commands.HandlerOf | src/commands.c:48-69 | the table's argument counts protect every `argv` access, and its names agree with the transaction and write lists |
| Commands.KeyNames | src/commands.c:48-69 | which names, in any letter case, with how many words, call which handler of the commands on keys, and no others do |
| Handlers.SetCommand | src/commands.c:356-400 | the in-place SET with EX and PX does as specified |
| Handlers.GetCommand | src/commands.c:402-412 | the in-place GET replies the value or a null bulk |
| Handlers.DelCommand | src/commands.c:414-425 | the loop deletes and counts as specified |
| Handlers.ExistsCommand | src/commands.c:427-438 | the loop looks up, removes the expired and counts as specified |
| Handlers.ExpireCommand | src/commands.c:440-454 | sets the expiry through the found entry, or replies 0 |
| Handlers.TtlCommand | src/commands.c:456-480 | -2, -1 or the whole seconds left |
| Handlers.IncrCommand | src/commands.c:588-649 | parses, adds one, stores with the old expiry, or refuses and leaves the value |
| Handlers.HandleCommand | src/commands.c:262-277 | the dispatch runs the handler of the name |
| Expiry.FetchedView | src/dict.c:140-165 | a lookup returns what a table without expired entries holds, and does not change that |
| Expiry.HandleView | src/commands.c:356-649 | by its name, every key command acts on the unexpired entries as on a plain map, with expiry times and replies given as numbers and text; DEL's number is apart |
| Expiry.SweepView | src/dict.c:240-277 | a sweep does not change the unexpired entries |
| Expiry.RepliesPlain | src/commands.c:356-649 | all replies of a run are those of a plain map that knows no sweeps |
| Expiry.SweepsInvisible | src/dict.c:240-277 | sweeps anywhere in a run change no reply of SET, GET, EXISTS, EXPIRE, TTL or INCR |
| Expiry.DelReply | src/commands.c:414-425 | DEL replies how many of the keys named are stored, each counted once, and removes exactly those |
| KeyCommands.SetStores | src/commands.c:356-400 | SET stores value, size and time; EX sets the expiry to now plus 1000 per second, PX to now plus the milliseconds, in 64 bits; without either it stays; nothing else changes |
| KeyCommands.GetAnswers | src/commands.c:402-412 | GET replies the value of a stored key up to its expiry, a null bulk after it and for any other key |
| KeyCommands.ExpireStores | src/commands.c:440-454 | EXPIRE sets the expiry to now plus 1000 per second and keeps the value |
| KeyCommands.SetThenGet | src/commands.c:361-370 | after SET with EX or PX a GET at any later time answers the value until the given time is over and a null bulk ever after |
| Expiry.DelCount | src/commands.c:414-425 | DEL replies the number of live keys among those named if and only if none of them is stored but expired |
| Counter.OneIncr | src/commands.c:588-649 | one INCR stores the text of n + 1 with its size, replies it, keeps the expiry and touches no other key |
| Counter.IncrCounts | src/commands.c:588-649 | k INCRs reply n + 1 to n + k, leave text that parses to n + k, and keep the expiry and all other keys |
| Snapshot.LERoundTrip | src/persistence.c:67-70 | fixed-width little-endian integers are read back |
| Snapshot.RecordBytes | src/persistence.c:85-109 | the bytes of one record, field by field |
| Snapshot.EmptyImage | src/persistence.c:64-122 | the bytes of an image without records: magic, version, count, end marker |
| Snapshot.RecordReadBack | src/persistence.c:180-271 | a written record is read back, as nothing if it has expired, and leaves the cursor after it |
| Snapshot.ReadRecordMore | src/persistence.c:180-271 | reading a record never depends on the bytes after it |
| Snapshot.TruncatedRecord | src/persistence.c:180-271 | no proper beginning of a record is read |
| Snapshot.LoadAll | src/persistence.c:178-282 | all written records are loaded; loading succeeds if and only if the count was theirs |
| Snapshot.RestoreContents | src/persistence.c:199-266 | loading adds the unexpired records with their key, value and expiry |
| Snapshot.SnapshotRoundTrip | src/persistence.c:50-287 | save at t1, load at t2: exactly the entries unexpired at both, same value and expiry; success if and only if nothing had expired at t1 |
| Snapshot.TruncatedSnapshot | src/persistence.c:144-287 | every strict prefix fails to load and leaves the unexpired ones of the first m records |
| Snapshot.BodyTruncated | src/persistence.c:178-282 | the same for the part after the header, from any table |
| Persistence.WriteString | src/persistence.c:21-29 | succeeds if and only if there are writes enough for length and bytes, which are then appended |
| Persistence.WriteRecord | src/persistence.c:85-114 | succeeds if and only if there are writes enough for one record, which is then appended |
| Persistence.WriteChain | src/persistence.c:77-117 | succeeds if and only if there are writes enough for the unexpired records of the chain, which are then appended in order |
| Persistence.WriteImage | src/persistence.c:64-124 | succeeds if and only if there are writes enough for the image, which the stream then holds whole |
| Persistence.Save | src/persistence.c:50-141 | succeeds if and only if the file opens, the writes suffice and the rename works; the files afterwards, exactly; at every step either only the temporary file differs or the flushed image is in place; it is the whole image if and only if the last flush was complete |
| Persistence.CommittedWhole | src/persistence.c:126-131 | what closing leaves is the whole image if and only if it flushed all of it |
| Persistence.LoadString | src/persistence.c:32-47 | reads length and bytes at the cursor as specified |
| Persistence.LoadRecord | src/persistence.c:180-271 | reads one record at the cursor as specified, expired ones as nothing |
| Persistence.LoadEntries | src/persistence.c:178-282 | the loop fills the table in place as specified, and checks the end marker |
| Persistence.LoadFile | src/persistence.c:144-287 | a missing file is success, one that cannot be opened or has a bad header failure, else the entries are loaded |
| Persistence.SaveAndRestart | src/main.c:471-473 | a save and a later start: flushed whole, the new table holds what was unexpired at both times; flushed short, loading fails after some first records; not saved, the old file is loaded |
| PubSub.SubscribeOk | src/pubsub.c:18-72 | names stay unique, nobody is twice in a channel, and the client is now in it |
| PubSub.UnsubscribeOk | src/pubsub.c:75-102 | the client is gone from that channel for good |
| PubSub.RemoveFirstGone | src/pubsub.c:87-96 | removing the first match and stopping removes the client entirely, and nobody else |
| PubSub.RemoveClientOk | src/pubsub.c:206-235 | afterwards the client is in no channel and everybody else where they were |
| PubSub.SubscribeAllExact | src/pubsub.c:105-125 | SUBSCRIBE puts the client in every channel named, and changes no other subscription |
| PubSub.UnsubscribeClientExact | src/pubsub.c:128-176 | UNSUBSCRIBE takes the client out of the channels named, or of all, and nobody else out of any; no channel goes |
| PubSub.UnsubscribeConfirms | src/pubsub.c:128-176 | it confirms exactly the channels left, each once, or, unnamed and in none, replies that |
| PubSub.RepliesNumbered | src/pubsub.c:110-118 | subscriptions are confirmed in order, numbered from 1 |
| PubSub.SubscribeReadBack | src/pubsub.c:115-118 | a confirmation reads back as "subscribe", the channel, and the number |
| PubSub.MessageReadBack | src/pubsub.c:188-192 | a message reads back as "message", the channel, and the text |
| PubSub.Hub.WalkTo | src/pubsub.c:19-26 | the walk stops at the first channel of that name |
| PubSub.Hub.SubscribeTo | src/pubsub.c:42-72 | finds or creates the channel and adds the client unless it is there |
| PubSub.Hub.SubscribeClient | src/pubsub.c:105-125 | subscribes to every name and replies with the running count |
| PubSub.Hub.UnsubscribeFrom | src/pubsub.c:75-102 | detaches the client and reports whether it was subscribed |
| PubSub.Hub.UnsubscribeClientFrom | src/pubsub.c:128-176 | without names leaves every channel; with names replies only for those it was in |
| PubSub.Hub.DetachEverywhere | src/pubsub.c:206-235 | one pass detaches the client everywhere |
| PubSub.Hub.Publish | src/pubsub.c:182-200 | the walk to the channel and the subscribers it finds there, in order; the writes are those of `Server.CrimsonCache.Publish` |
| Replication.FeedKeeps | src/replication.c:316-351 | a replica whose write is full or would block stays in the list |
| Replication.DoomedFailed | src/replication.c:327-336 | only replicas whose write failed are marked for removal |
| Replication.RemoveFdsKeeps | src/replication.c:348-351 | removing the marked ones leaves all others |
| Replication.FeedReaches | src/replication.c:324-344 | every replica whose write is full is sent the frame as often as it is listed, and nobody anything else |
| Replication.FeedOffset | src/replication.c:297-346 | the offset grows by the bytes sent in full; a replica feeds nobody |
| Replication.FeedDrops | src/replication.c:327-351 | with at most 100 replicas, one whose write failed is forgotten |
| Replication.StaleNotSent | src/replication.c:67-71 | no line is sent for exactly the expired entries |
| Replication.ReplicaList.FeedReplicas | src/replication.c:297-356 | frames the command, writes it to every replica, advances the offset per full write, removes the marked |
| Replication.ReplicaList.Remove | src/replication.c:186-211 | removes the first node of that descriptor |
| Replication.ReplicaList.AddReplica | src/replication.c:136-154 | prepends the replica and sends it the table |
| Replication.ReplicaList.SyncReplica | src/replication.c:48-133 | sends the unexpired entries in bucket order |
| Replication.ReplicaList.SyncEntry | src/replication.c:76-126 | SET, and EXPIRE if at least a whole second is left, or nothing if the write is not full |
| Executor.Execute | src/commands.c:210-305 | terminates with EXEC nested at most once, and keeps the server's invariant and the registered clients |
| Executor.ExecCmd | src/commands.c:704-729 | EXEC keeps the invariant and the registered clients |
| Executor.RunQueue | src/transaction.c:109-113 | running a queue keeps the invariant; it needs only that no line in it is a transaction command |
| Executor.RunCommandOk | src/commands.c:261-277 | no handler but those of transactions changes a client, none but the key commands the table |
| Executor.OtherCommandOk | src/commands.c:345-791 | the handlers that are not about keys keep the invariant and the table |
| Executor.SetClientOk | src/transaction.c:19-69 | changing one client's transaction state keeps sockets and identities distinct |
| Executor.ReceiversLive | src/pubsub.c:179-203 | whoever a message goes to is a registered client |
| Transactions.ExecIsSequential | src/transaction.c:72-117 | whatever clock and sockets each line finds, EXEC leaves the same world and the same bytes on every socket as its lines one by one outside, after the `*N` header |
| Transactions.TransactionRuns | src/commands.c:681-729 | MULTI, any lines that are no transaction commands, EXEC leave the world of the lines one by one outside; before what they send, the client is sent OK, QUEUED per line, and their number |
| Transactions.TransactionDiscarded | src/commands.c:681-751 | MULTI, any lines that are no transaction commands, DISCARD change nothing but what the client is sent |
| Transactions.MultiOpens | src/commands.c:681-701 | MULTI raises its client's flag and replies OK; nothing else changes |
| Transactions.QueuesLine | src/commands.c:247-259 | in a transaction a line joins the end of the queue and is answered QUEUED; nothing else changes |
| Transactions.DiscardCloses | src/commands.c:732-751 | DISCARD empties the queue, lowers the flag and replies OK twice; nothing else changes |
| Transactions.ExecuteRested | src/commands.c:210-305 | whatever line arrives, no client outside a transaction has anything queued |
| Transactions.RunQueueOneByOne | src/transaction.c:109-113 | the loop is the lines executed in order |
| Transactions.ResetNeverActs | src/commands.c:720-725 | the flag is down throughout the queue, so the forced reset never acts |
| Transactions.QueueAfterHeader | src/transaction.c:103-113 | the header stands before all a queue writes, and changes nothing else |
| Transactions.QueuedLineKeepsClients | src/transaction.c:109-113 | no queued line changes any client's transaction state |
| Transactions.QueueKeepsClients | src/transaction.c:109-113 | nor does the whole queue |
| Transactions.ExecuteAfter | src/commands.c:210-305 | what a line does never depends on what was sent before |
| Transactions.RunQueueAfter | src/transaction.c:72-117 | nor does what a queue does |
| Lifecycle.RegisterOk | src/main.c:32-40 | with a free slot the new client, at rest, is found by its socket, else not; everybody else is found as before; the invariant stays |
| Lifecycle.DisconnectOk | src/main.c:245-249 | leaving the channels before the registry leaves no subscriber behind |
| Lifecycle.StepOk | src/main.c:209-251 | every event keeps the invariant |
| Lifecycle.BootOk | src/main.c:425-517 | the server starts in order, whatever is in the snapshot file |
| Lifecycle.Reachable | src/main.c:209-251 | in every world reachable from a start with any snapshot file the table is well formed, queues are clean and empty outside transactions, sockets and identities distinct, channel names unique, and every subscriber is registered and subscribed once |
| Lifecycle.PublishExact | src/pubsub.c:179-203 | the message goes once to the socket of each subscriber and of nobody else, and the reply is their number |
| ServerCommands.KeyLine | src/commands.c:262-300 | outside a transaction a command on keys changes the table and answers; a successful write of a primary's client is counted and sent on; nothing else changes |
| ServerCommands.Refusals | src/commands.c:224-285 | an empty line, an unknown name and a wrong number of words are refused and change nothing |
| ServerCommands.TxRefusals | src/commands.c:681-751 | nested MULTI, and EXEC and DISCARD outside a transaction, are refused and change nothing |
| ServerCommands.PingLine | src/commands.c:345-354 | PONG, or the word back |
| ServerCommands.OutcomeLines | src/commands.c:482-513 | SAVE and BGSAVE answer how it went |
| ServerCommands.ReplicaOfLine | src/commands.c:516-543 | the role changes whether or not the connection comes about, and not for a bad port |
| ServerCommands.ReplConfLine | src/commands.c:652-678 | listening-port lists the sender as newest replica and sends it the table before the OK; any other is just answered |
| ServerCommands.SubscribeLine | src/commands.c:754-764 | the client is in every channel named, all other subscriptions are as before, and each is confirmed |
| ServerCommands.UnsubscribeLine | src/commands.c:767-777 | the client is in none of the channels named, or none at all, all other subscriptions are as before, and exactly the channels left are confirmed |
| ServerCommands.PublishLine | src/commands.c:780-791 | every subscriber's socket is sent the message once, then the caller their number; nothing else changes |
| KeyValues.HandleKv | src/commands.c:356-649 | every key command changes the key-to-value map by its arguments alone, and not at all if it fails |
| KeyValues.LineKv | src/commands.c:261-300 | only successful write commands change the map |
| KeyValues.ReplicaLine | src/main.c:144-150 | what a replica does to its map is a function of the line alone |
| KeyValues.ReplicaReplays | src/main.c:140-157 | a run of lines replays to a map that does not depend on the clock |
| Convergence.FrameIsOneLine | src/replication.c:304-314 | a propagated command arrives as one line if and only if it has no CRLF inside |
| Convergence.EntryArrives | src/replication.c:80-99 | a synchronised entry arrives whole if and only if its key and value have those characters and its value has no CRLF |
| Convergence.InteriorCrlfDiverges | src/commands.c:298 | a concrete input after which primary and replica hold different maps |
| Convergence.FeedOnce | src/replication.c:324-344 | a replica listed once is sent each frame exactly once if the write is full, and nothing if it blocks or fails |
| Convergence.PropagateFeeds | src/commands.c:290-300 | propagation appends exactly the frame to what that replica was sent |
| Convergence.CarriesReply | src/main.c:140-157 | an interleaved `+` or `-` reply line changes nothing on the replica |
| Convergence.CommandKeeps | src/commands.c:261-277 | no handler called by another client, short of making the server a replica, sends the replica a byte or takes it off the list |
| Convergence.ServeLine | src/commands.c:210-305 | any line of another client sends the replica exactly what carries its change of the map, if what is sent on has no CRLF inside and is written in full |
| Convergence.ServeExec | src/commands.c:704-729 | so does a whole EXEC |
| Convergence.ServeEvent | src/main.c:209-251 | so does every event |
| Convergence.ServeRun | src/main.c:209-251 | at every point of a run the replica has been sent exactly lines that replay to the primary's map |
| Convergence.SyncCarries | src/replication.c:48-133 | the synchronisation rebuilds the map from nothing, EXPIRE lines included |
| Convergence.ExpireLineReadBack | src/replication.c:107-115 | the EXPIRE line tokenizes to EXPIRE, the key and the seconds |
| Convergence.ExpirySent | src/replication.c:106-120 | an entry with n whole seconds left is made to live n seconds by the replica that executes its lines; one that stays or is in its last second is sent without |
| Convergence.Join | src/commands.c:652-678 | joining, by name, sends lines that rebuild the map, and an OK that changes nothing |
| Convergence.FreshServerCanBeJoined | src/replication.c:271-273 | a server just started meets the conditions, for the line every replica sends, if what its snapshot loaded can be sent |
| Convergence.EmptyServerCanBeJoined | src/main.c:471-473 | without a snapshot it always does |
| Convergence.Converges | src/replication.c:297-356 | whatever the reads, an empty replica that joined at any moment and consumed what it was sent holds the primary's map, with no byte left over |
| Server.Connection.TxCleanup | src/transaction.c:19-44 | all transaction fields are reset |
| Server.Connection.TxQueue | src/transaction.c:47-69 | the line joins the end of the queue; a full array grows to ten places, then doubles, and there is room at the store |
| Server.LoadedTable | src/main.c:458-473 | a new table holding what the snapshot file loads |
| Server.CrimsonCache.constructor | src/main.c:425-517 | a valid server with no client and what the snapshot file loaded |
| Server.CrimsonCache.ClientAt | src/main.c:52-59 | the registered client of that socket, or none |
| Server.CrimsonCache.RegisterClient | src/main.c:32-40 | takes the first free slot, or none |
| Server.CrimsonCache.DisconnectClient | src/main.c:245-249 | leaves every channel, cleans the transaction, frees the slot |
| Server.CrimsonCache.SweepExpired | src/main.c:78-87 | one round of the cleanup thread is a sweep |
| Server.CrimsonCache.Multi | src/commands.c:681-701 | raises the flag, or refuses to nest |
| Server.CrimsonCache.Discard | src/commands.c:732-751 | drops the queue and replies OK twice, or refuses |
| Server.CrimsonCache.ReplicaOf | src/commands.c:516-543 | changes the role before connecting, and refuses bad ports |
| Server.CrimsonCache.ReplConf | src/commands.c:652-678 | makes the caller a replica and synchronises it |
| Server.CrimsonCache.SubscribeTo | src/commands.c:754-764 | subscribes the client of the socket |
| Server.CrimsonCache.UnsubscribeFrom | src/commands.c:767-777 | unsubscribes the client of the socket |
| Server.CrimsonCache.Publish | src/commands.c:780-791 | delivers to every subscriber's socket and replies their number |
| Server.CrimsonCache.ExecuteCommand | src/commands.c:210-305 | on shared objects in place, does what the state machine does for the same line |
| Server.CrimsonCache.Exec | src/commands.c:704-729 | copies the queue, cleans the client and runs the copies, as specified |
| Server.CrimsonCache.RunTransaction | src/transaction.c:79-113 | header first, then cleanup, then every copied line in order |
| Server.CrimsonCache.RunCommands | src/transaction.c:109-113 | the loop over the copied queue terminates and runs it in order, each line in its own context |
| Server.CrimsonCache.ForceDown | src/commands.c:722-725 | the forced reset of a flag still up |
| Server.CrimsonCache.PropagateLine | src/commands.c:290-300 | counts the change and feeds the replicas the original line |
| Server.CrimsonCache.ReplicaRead | src/main.c:129-165 | one read of a replica executes the completed lines on its server and keeps the rest |

## Left out

- Expiry.SweepsInvisible: the number DEL replies is excluded, because the code counts stale keys; `Expiry.DelCount` has the exact condition. No memory limit is set, as in the code.
- Convergence.Converges: assumes what the code does not ensure: the replica starts empty (it does not flush itself), is listed once and subscribes to nothing; what is sent on to it has no CRLF inside and is written in full; no line makes the server a replica; nothing has expired when it is looked at; no memory limit; every stored entry can be synchronised when the replica joins. `Convergence.InteriorCrlfDiverges`, `Convergence.FeedOnce` and `Convergence.EntryArrives` show why.
- Eviction.EvictPolicy: sufficiency assumes access times below the largest 64-bit number; `Eviction.NothingLeft` shows that nothing else can defeat it.
- KeyCommands.SetStores: no memory limit, as in the code; with one, eviction may take the new entry at once, which `Eviction.StepRefines` describes.
- Replication.FeedDrops: at most 100 replicas; the code marks no more than 100 in one feed, so of more failed ones some stay until a later feed.
- Counter.IncrCounts: results within the signed 64-bit range and nothing expired in between; at the very end of the range C leaves the sum undefined, and the model wraps.
- Lines.ReadAll: every read must leave room in the buffer; with a full buffer the code reads zero bytes and takes it for a closed connection.
- Memory limit: no code ever sets `max_memory`; it is the field `limit` here, and results that need it to be 0 say so. `used_memory` and `used` are unbounded integers.
- `cc_obj` is a value inside its entry: its separate allocation, `free`, and the aliasing of a replaced object are not captured. Allocation always succeeds; `dict_free` has no counterpart.
- Channel, subscriber and replica lists and the transaction queue are sequences held in a field of their object, changed in place; node surgery is modelled for the hash table only. Of the queue array, the capacity is. A client pointer is an identity that is never used again.
- Bytes are Dafny characters; the order of bytes in integers is little-endian, as on the machines the server is built for.
- One reading of the clock per command, each queued line having its own; the C code reads it at each use.
- Signed overflow in `EX seconds * 1000` is undefined in C and wraps here.
- Replies and synchronisation lines longer than the fixed buffers of the C code (1024 and 4096 bytes) are not truncated; neither is the 256-byte temporary file name.
- Writes to client sockets succeed. `repl_offset` is modelled per read and per feed, not carried across roles.
- How SAVE, BGSAVE and connecting to a primary end is a parameter of the executor, and so is the text of ROLE; the effect of SAVE on the disk is `Persistence.Save`, on its own.
- Part of the temporary file reaching the disk before `fclose`, `fsync`, and two savers at once.
- A reader that keeps the unfinished line of an old connection after REPLICAOF.
- Threads: commands, sweeps and reads are atomic steps, as if the table were locked.
- `src/eventloop.c`, `src/config.c`, signals, `fork`, host lookup, logging and INFO: system calls and text without logic of their own.
- Value types other than strings, which are declared and never created.
