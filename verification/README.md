# File synchronisation server: a verified model

The program keeps files synchronised. A server reads a list of paths, keeps a table with one record per
file, pushes the listed files to its clients, and afterwards pushes whatever is new or has a new time stamp.
A master server goes through a three-message exchange with each of its slaves: it sends its list of paths
and digests, the slave answers with the paths it wants, and the master sends their contents.

The model follows the source file by file.

| file | what it models |
|---|---|
| `Bytes`, `Wrappers`, `Environment` | bytes and paths; the file system, `stat` and SHA-256 as parameters |
| `BitArith`, `UtHash` | the hash table of `include/uthash.h`: items threaded through an application-order list and through bucket chains, with its bucket doubling, deletion and self-check |
| `Sort` | `HASH_SRT`, the in-place merge sort of the same list |
| `Records` | the abstract value of the table: a sequence of records in insertion order |
| `HashTableFunc`, `FileFunc`, `ChangeDetection` | the table operations, the list scan, and what a scan does to the table |
| `Wire`, `Serialize`, `Deserialize` | the message format, the sizing pass and the writers, the three readers |
| `Compress`, `Delivery` | the compression wrapper, and a whole message from one machine to the other |
| `ServerRun`, `Server`, `Client` | the server loop as a state machine and as a class, and its clients |
| `Comparison`, `Exchange`, `Convergence`, `MasterThreads`, `Session` | the exchange: what the list does to a slave's table, the messages, what they leave on a slave, all interleavings of the master's threads, and both ends as they run |
| `ListFile` | the list file a slave prints, and what reading it back finds |
| `Rounds` | exchanges one after the other: from the master's files to those of its slaves' clients |
| `Witnesses` | concrete inputs for the surprises listed below, a run and a round that go well, and three messages byte by byte |

A table is a class whose operations are proved against a function of its `Contents()`, and what the program
promises is proved about those functions and about the state machines built from them.

## Main results

- Every operation of the table keeps the invariant that `HASH_FSCK` checks, through doubling and through the
  deletion of any item, and a bucketed search answers what a scan of the list in insertion order would.
- What a writer writes is what a reader reads, byte for byte, for all three message types, compressed or not;
  the sizing pass always agrees with the writer.
- In every run of the server that finds no new or changed file listed twice, at every turn of its loop, a
  client that has applied its messages holds for every path in the table exactly the contents as of that
  path's last recorded change, as long as files with the same place on the client agree
  (`ServerRun.ClientsConverge`). The snapshot for new clients is the message of the table as it was at some
  turn and covers the present one (`ServerRun.SnapshotOpens`); exactly when it is exact is
  `ServerRun.SnapshotExactly`. In terms of places: if no two files have the same last component, the file
  recorded as `a/b` is at `dir/b` (`ServerRun.FilesArrive`). Which connections are served is
  `ServerRun.SlottedExactly`, and neither the loop nor a client is ever stuck (`ServerRun.LoopGoesOn`,
  `Client.ClientsKeepUp`).
- In every interleaving of the master's threads over their shared marks, every slave whose session is over
  has the master's contents at every path the master lists, save its own list file, and no other change
  (`MasterThreads.SlavesConverge`). Every interleaving runs out of steps, and exactly when it then has all
  sessions over is `MasterThreads.RoundStops`; from every start without an empty slave table there is one that
  takes all slaves to their convergence (`MasterThreads.RoundCompletes`). In a round without earlier
  marks no file is sent that no slave of the round has asked for (`MasterThreads.DataAsked`).
- In any run of a slave's server, with any number of exchanges before, a turn with an exchange and the scan
  behind it leaves exactly the master's paths in the slave's table, and the master's contents on every
  up-to-date client of the slave (`Rounds.RoundConverges`). What the next exchange needs of tables and digests
  holds again at every turn of every run (`Rounds.MasterReady`, `Rounds.SlaveReady`).
- `HASH_SRT` leaves the one stable sorted order of the records, with all links repaired.

## Where the code does not do what one would expect

For each of these there is a concrete input, and a lemma with the exact condition under which the expected
property holds.

- A changed file that is listed twice is refreshed but loses its mark, so its clients never get it:
  `Witnesses.ListedTwice`, `ChangeDetection.MarksComplete`.
- Clients drop directories, so files of equal base name overwrite each other: `Witnesses.SameBaseName`,
  `ServerRun.ClobberExactly`.
- Once the table has become empty it does not follow the list any more: `Witnesses.EmptyMisses`,
  `ServerRun.ScanFollows`; and it stays empty for the rest of the run: `ServerRun.EmptyForever`.
- A file that merely leaves the list does not renew the snapshot, so new clients still get it:
  `Witnesses.Lingers`, `ServerRun.SnapshotExactly`.
- A slave with an empty table neither answers nor hangs up, so the thread that serves it waits for ever, and
  the master's loop with it: `Witnesses.EmptySlaveHangs`, `MasterThreads.NeverStuck`,
  `MasterThreads.RoundStops`. The other slaves of the round still converge.
- Digests are compared with `strncmp`, which stops at a zero byte they share: `Convergence.StrncmpBlind`,
  `Convergence.StrncmpExactly`. A slave then keeps its own contents: `Witnesses.SlaveKeeps`; and so does its
  list file if the master lists that path: `Convergence.AloneExactly`.
- A path with a space or a newline, or one that begins with a dot, does not survive the slave's list file:
  `Witnesses.SpaceIsCut`, `Witnesses.DotIsRelative`, `ListFile.ListFileRoundTrip`.
- A payload of 4 GiB or more does not survive compression, and just below 4 GiB one does not either if its
  compressed form does not fit what is left of `compressBound` modulo 2^32: `Witnesses.JustBelow`,
  `Compress.RestoresExactly`.

## Assumptions

They are hypotheses of the lemmas that need them, never of the operations.

- The codec inverts itself and stays within its bound (`Delivery.CodecOk`), and messages are delivered whole
  and in order.
- During one scan or one exchange the files rest, and new contents come with a new time stamp
  (`ServerRun.Consistent`). A connection is a new socket number.
- For a slave's convergence: recorded digests are up to date, every file can be opened, and the comparison of
  digests tells different contents of a path apart (`Convergence.ToldApart`). Over repeated exchanges the
  first of these follows if a file that is written gets a new time stamp (`ServerRun.Answered`,
  `Rounds.SessionAnswers`).
- Paths fit their buffers with their terminator, have no embedded NUL and have a slash (`Bytes.GoodPath`).
- Client names are the intended `dir/basename`, although the source builds them with overlapping `snprintf`
  arguments (`src/func_lib/serialize_func.c:125`).

## Model

| member | source | states |
|---|---|---|
| `BitArith.MaskIsMod` | include/uthash.h:496-500 | the bucket mask `hashv & (num_buckets - 1)` is the remainder modulo the number of buckets |
| `BitArith.ShiftIsDiv` | include/uthash.h:998-1001 | the shifts of the expansion are divisions by powers of two |
| `BitArith.SplitOnDoubling` | include/uthash.h:1008-1009 | when the table doubles, an item keeps its bucket index or moves up by the old number of buckets |
| `BitArith.IdealMaxlenIsCeil` | include/uthash.h:966-1001 | the shift-and-mask ideal chain length is the number of items over the doubled number of buckets, rounded up, and never 0 for a non-empty table |
| `Records.IndexOf` | include/uthash.h:167-192 | the reference lookup: the first record with the path in insertion order, or none |
| `Records.SweptIs` | src/func_lib/hash_table_func.c:176-196 | a sweep keeps exactly the records whose state is not -1, and keeps paths distinct |
| `UtHash.CountsSum` | include/uthash.h:600-640 | in every table whose chains divide the items, the bucket counts add up to the number of items |
| `UtHash.PushedPartition` | include/uthash.h:910-930 | putting a new item at the head of the chain its hash selects keeps every item in exactly one chain, the right one |
| `UtHash.WithoutPartition` | include/uthash.h:933-950 | taking an item out of its chain keeps every other item in exactly one chain, the right one |
| `UtHash.CountersPushed` | include/uthash.h:1010-1017 | the redistribution counters stay exact for every placed item: nonideal items are the sum of the excesses over the ideal length, and every multiplier fits its chain |
| `UtHash.FileList.constructor` | include/uthash.h:457-480 | a file list starts empty, with its invariant |
| `UtHash.FileList.LinkFront` | include/uthash.h:910-921 | an item becomes the head of its chain: back links, chain head and count are exact, and the other chains are untouched |
| `UtHash.FileList.MoveToNewBucket` | include/uthash.h:1007-1025 | one redistribution step moves an item to the chain of the doubled mask and keeps the counters exact |
| `UtHash.FileList.Redistribute` | include/uthash.h:1002-1027 | after the redistribution the new chains hold exactly the old items, each in the chain its hash selects, with exact counters |
| `UtHash.FileList.ExpandBuckets` | include/uthash.h:981-1040 | doubling is a pure reindexing of the same items: buckets stay a power of two, the ideal length and the nonideal count are exact, and two ineffective expansions in a row stop all further ones |
| `UtHash.FileList.AddToTable` | include/uthash.h:387-397 | an item enters its chain; the buckets double exactly when the chain, with it, has ten times its multiplier plus one, and expansion is allowed, and otherwise nothing changes but the head and the count of that one bucket |
| `UtHash.FileList.TenthDoubles` | include/uthash.h:910-930 | ten items of one bucket, added to a fresh table: the tenth leaves 64 buckets |
| `UtHash.FileList.MakeTable` | include/uthash.h:236-271 | a fresh table has 32 empty buckets with zero multipliers, zero counters, and its first item as tail |
| `UtHash.FileList.AppendList` | include/uthash.h:314-320 | an item is appended in application order: links in both directions and the cached tail stay exact |
| `UtHash.FileList.Thread` | include/uthash.h:457-480 | adding threads an item through both structures and keeps the whole invariant; the first item makes 32 buckets, and later ones double them exactly at the threshold |
| `UtHash.FileList.Add` | include/uthash.h:482-488 | adding appends the record to the abstract table and keeps the invariant |
| `UtHash.FileList.FindInBkt` | include/uthash.h:878-907 | walking one chain finds the item with the key, or none has it |
| `UtHash.FileList.Find` | include/uthash.h:167-192 | a bucketed search returns exactly the item a scan of the list in insertion order would find first, for any hash function |
| `UtHash.FileList.FoundByScan` | include/uthash.h:167-192 | an item with the key, if keys are unique, is the one the scan finds |
| `UtHash.FileList.DelInBkt` | include/uthash.h:933-950 | an item leaves its chain: head, count and links stay exact, the multiplier and the other chains are untouched |
| `UtHash.FileList.UnlinkApp` | include/uthash.h:530-548 | an item leaves the application order: head, tail and links stay exact wherever it stood |
| `UtHash.FileList.Unthread` | include/uthash.h:517-553 | deletion keeps the invariant for the head, the tail, an inner item and the only item, which takes the table with it |
| `UtHash.FileList.Delete` | include/uthash.h:517-553 | deleting removes that one record from the abstract table and keeps the order of the others |
| `UtHash.FileList.ContentsDistinct` | include/uthash.h:600-657 | in every valid table the paths are distinct |
| `UtHash.FileList.Fsck` | include/uthash.h:600-657 | the table's own integrity check passes on every valid table |
| `Sort.Emit` | include/uthash.h:1112-1124 | appending an item to the list under construction sets its links in both directions and touches no item that is still to come |
| `Sort.TakeFirst` | include/uthash.h:1086-1105 | taking from the first run while its item does not compare greater keeps the merged part sorted and before everything to come |
| `Sort.TakeSecond` | include/uthash.h:1080-1111 | taking from the second run when its item compares less keeps the merged part sorted and before everything to come |
| `Sort.SkipRun` | include/uthash.h:1066-1076 | walking over a run counts its items and finds the start of the next one |
| `Sort.MergeRuns` | include/uthash.h:1065-1126 | two neighbouring runs become one sorted run of the same items |
| `Sort.MergePass` | include/uthash.h:1059-1131 | one pass relinks the whole list in runs of double length; it needs one merge exactly if that covers the list |
| `Sort.SortPasses` | include/uthash.h:1054-1139 | the passes end for every list an `unsigned` can count, before the run length wraps around |
| `Sort.SortedOnlyOnce` | include/uthash.h:1046-1142 | there is only one stable sorted order, so the result is determined by the records and the comparison |
| `Sort.HashSrt` | include/uthash.h:1046-1142 | sorting leaves a valid table of the same items, stably sorted, with every link, head and tail repaired and no chain touched |
| `HashTableFunc.FindFileData` | src/func_lib/hash_table_func.c:58-76 | the record of a path, as a scan in insertion order would find it |
| `HashTableFunc.AddPath` | src/func_lib/hash_table_func.c:88-132 | a new path is appended with its size, time stamp and digest, marked for sending; a known path changes nothing |
| `HashTableFunc.DeleteFileData` | src/func_lib/hash_table_func.c:144-166 | the record of the path is removed, if there is one, and nothing else |
| `HashTableFunc.CheckPath` | src/func_lib/hash_table_func.c:231-255 | a record is refreshed and marked exactly if its time stamp differs; otherwise its mark is cleared |
| `Environment.RecordedIs` | src/func_lib/hash_table_func.c:102-129 | what is recorded of a path: size, digest and time stamp of the file, or zeros if there is none; what a check makes of a record, and what becomes of its digest on a slave |
| `HashTableFunc.ChangeState` | src/func_lib/hash_table_func.c:267-276 | every record gets the state, and nothing else changes |
| `HashTableFunc.SweepAt` | include/uthash.h:1240-1242 | while the sweep deletes, the entry it is at and the one it will visit next are still where the iteration expects them, and the search by path finds that very entry |
| `HashTableFunc.DeleteStateClear` | src/func_lib/hash_table_func.c:176-196 | the sweep removes exactly the records in state -1, in order, although every removal searches the table again and may free it |
| `FileFunc.ReadLine` | src/func_lib/file_func.c:317-328 | one line of the list gives the existing file it names, if any, and the place where the next line starts |
| `FileFunc.ProcessSyncFile` | src/func_lib/file_func.c:261-292 | every existing listed file that is not in the table is added, in list order |
| `FileFunc.ScanToken` | src/func_lib/file_func.c:330-341 | one listed file is added, or refreshed, and the answer tells whether it must be sent |
| `FileFunc.UpdateCheckSyncFile` | src/func_lib/file_func.c:304-348 | the scan: -1 and no change for an empty table; otherwise the scanned and swept table, and 1 exactly if some line triggered |
| `ChangeDetection.UpdateIs` | src/func_lib/file_func.c:304-348 | after marking everything -1 and scanning, the paths in the table are exactly the listed files that exist, each with the record its occurrences give it |
| `ChangeDetection.MarkedExactly` | src/func_lib/file_func.c:317-344 | a listed file is marked exactly if it is new or has a new time stamp and occurs once in the list; its record is up to date and no -1 is left |
| `ChangeDetection.MarkedIs` | src/func_lib/file_func.c:317-344 | the marked paths of an updated table are exactly the listed fresh ones that occur once |
| `ChangeDetection.MarksComplete` | src/func_lib/hash_table_func.c:240-243 | the marks carry every change exactly if no fresh file is listed twice; a repetition clears the mark |
| `ChangeDetection.ResultExactly` | src/func_lib/file_func.c:314-348 | the answer is 1 exactly if some listed file is new or has a new time stamp; a mere removal does not make it 1 |
| `ChangeDetection.TriggerIs` | src/func_lib/file_func.c:330-341 | a line triggers exactly if its file is fresh and met for the first time |
| `Wire.HeaderRoundTrip` | include/serialize_func.h:8-13 | the 24 header bytes are read back as the same type, size and count |
| `Wire.EncodeAt` | include/serialize_func.h:8-13 | numbers are stored little-endian: byte k counts the multiples of 256 to the k |
| `Wire.HeaderLayout` | include/serialize_func.h:8-13 | where type, size and count lie in the 24 bytes of the header, and what its padding is |
| `Wire.EntryRoundTrip` | src/func_lib/serialize_func.c:97-127 | one entry of any type is read back as the same path and payload wherever it lies, and the cursor moves to its end |
| `Wire.HeldRoundTrip` | src/func_lib/serialize_func.c:97-143 | a buffer that holds entries one after the other is read back as those entries |
| `Wire.PayloadRoundTrip` | src/func_lib/serialize_func.c:72-208 | what was written for a list of entries is what is read, in order, for each of the three types |
| `Serialize.UpdateHeaderSet` | src/func_lib/serialize_func.c:21-58 | the sizing pass computes the type, the number of selected records and the sum of their sizes |
| `Serialize.WriteNext` | src/func_lib/serialize_func.c:183-205 | writing one selected record moves the cursor by exactly what the sizing pass counted for it |
| `Serialize.WriteDone` | src/func_lib/serialize_func.c:165-208 | when a writer is done its cursor is exactly at the end of the buffer, and the header has the size and the number of the entries written |
| `Serialize.WriteEntry` | src/func_lib/serialize_func.c:183-205 | one turn of a writer stays inside the buffer and writes the entry of a selected record, or nothing |
| `Serialize.FileSerialized` | src/func_lib/serialize_func.c:165-208 | the buffer is exactly the message of the marked files, in list order, with as many bytes of each as recorded |
| `Serialize.FilePathSerialized` | src/func_lib/serialize_func.c:275-307 | the buffer is exactly the message of the marked paths |
| `Serialize.FileListSerialized` | src/func_lib/serialize_func.c:390-422 | the buffer is exactly the message of all paths with their digests |
| `Serialize.Compose` | src/server/server.c:46-51 | sizing and then writing gives a whole message, and nothing for an empty table |
| `Deserialize.NextEntry` | src/func_lib/serialize_func.c:102-122 | the reader gets the entry it is at, and its cursor comes to the start of the next one |
| `Deserialize.FileDeserialized` | src/func_lib/serialize_func.c:72-151 | the files of the message are stored in order; one that cannot be opened is skipped without losing the place, and stays as it was on the disk |
| `Deserialize.NameExactly` | src/func_lib/serialize_func.c:116-118 | every path with a slash is some directory part, a slash, and exactly one last component |
| `Deserialize.TargetIs` | src/func_lib/serialize_func.c:116-127 | a client stores the path a/b at its directory, a slash and b, cut to 4095 bytes; a server stores it at its own path |
| `Deserialize.SamePlace` | src/func_lib/serialize_func.c:116-127 | two paths go to the same place of a client exactly if their last components are the same |
| `Deserialize.FilePathDeserialized` | src/func_lib/serialize_func.c:221-261 | exactly the requested paths that are known get marked |
| `Deserialize.FileListDeserialized` | src/func_lib/serialize_func.c:321-376 | the list file is rewritten line by line, unknown paths are added, and records whose digests compare different are marked; an empty table refuses |
| `Compress.SerializedDataCompress` | src/func_lib/compress_func.c:75-136 | the new buffer holds the rewritten header, the original size and the deflated payload, and the header in memory is the one in the buffer |
| `Compress.SerializedDataDecompress` | src/func_lib/compress_func.c:20-61 | the new buffer has the stored size and holds what the stream yields over whatever it contained |
| `Compress.PackMessage` | src/func_lib/thread_func.c:174-181 | a message is sent compressed exactly if its payload exceeds the boundary, and exactly header and payload are sent |
| `Compress.PackRoundTrip` | src/func_lib/thread_func.c:225-228 | receiver and sender agree on compression, and type, count and payload are restored exactly |
| `Compress.PackedExactly` | src/func_lib/compress_func.c:75-136 | up to 100 bytes of payload travel as they are, more of them deflated behind their number under a type that is larger by 10 |
| `Compress.NothingReceived` | src/client/client.c:30-45 | a message that is cut short or has no payload reads as a closed connection |
| `Compress.RestoresExactly` | src/func_lib/compress_func.c:102-109 | the payload is restored whatever the fresh buffer held exactly if it is shorter than 4 GiB and the part of its compressed form that the decompressor needs fits compressBound modulo 2^32 |
| `Compress.RestoresUncut` | src/func_lib/compress_func.c:102-109 | for a decompressor that needs the whole stream: exactly if it is shorter than 4 GiB and its compressed form fits compressBound modulo 2^32 |
| `Delivery.SealedOpens` | src/client/client.c:30-57 | a message of any type opens to exactly the entries it was made from, and to nothing else |
| `Delivery.SealedReadable` | src/client/client.c:30-57 | everything a sender sends can be read to its end |
| `Delivery.ReceiveMessage` | src/func_lib/serialize_func.c:453-482 | the lines shared by the receivers: header, payload, and inflation exactly if the type says so |
| `Delivery.PackEntries` | src/server/server.c:53-56 | packing a written buffer gives the message of its entries |
| `Delivery.StoreToElsewhere` | src/func_lib/serialize_func.c:97-143 | storing files touches those of their targets that can be opened, and nothing else |
| `Delivery.StoreToLast` | src/func_lib/serialize_func.c:116-142 | of several files with the same target the last one decides |
| `ServerRun.FreeSlot` | src/func_lib/socket_func.c:325-336 | a new client gets the first free slot, or none |
| `ServerRun.ChosenSmaller` | src/func_lib/serialize_func.c:34-52 | the marked files take no more room than all of them |
| `ServerRun.UpdatedOk` | src/server/server.c:160-163 | a scan of a resting file system leaves every record up to date |
| `ServerRun.RunInv` | src/server/server.c:106-205 | in every state of every run: distinct paths, exact sizes, distinct sockets, and a snapshot that is the message of the table of some earlier turn and covers the present one |
| `ServerRun.HeardScan` | src/server/server.c:146-163 | after a session on a slave, the records the scan does not refresh are those of before, untouched by the master's list |
| `ServerRun.PushCovers` | src/server/server.c:163-178 | storing the marked files of a table brings a client that covered the unmarked ones up to date if files with the same place agree |
| `ServerRun.ScanReaches` | src/server/server.c:159-204 | one scan in which no fresh file is listed twice brings every client that was up to date, has a slot and applies what it is sent up to date again |
| `ServerRun.AcceptReaches` | src/server/server.c:114-125 | a new client that applies the snapshot is up to date |
| `ServerRun.ClientsConverge` | src/server/server.c:106-205 | in every run that finds no fresh file listed twice and whose tables have no clobbering files, at every turn, a slotted client that has applied all its messages holds exactly the last recorded contents of every path in the table |
| `ServerRun.FilesArrive` | src/server/server.c:106-205 | in every run without two files of one last component, at every turn, an up-to-date client holds the file recorded as a/b at its directory, a slash and b, with the contents as of its last recorded change |
| `ServerRun.NamesClobber` | src/func_lib/serialize_func.c:116-127 | files with different last components do not clobber each other |
| `ServerRun.InitExactly` | src/server/server.c:40-66 | the server enters its loop with exactly the existing listed files in its table, unmarked and as they are, a snapshot of exactly these, and twenty free slots |
| `ServerRun.SlotsExactly` | src/server/server.c:114-145 | a turn gives a slot to a new connection if one is free, takes it from a closed one, and leaves every other connection its own |
| `ServerRun.SlottedExactly` | src/server/server.c:106-145 | in every run there are twenty slots, and a connection has one if and only if it was accepted when one was free and has not been closed since |
| `ServerRun.LoopGoesOn` | src/server/server.c:106-205 | the loop is never stuck: in every state that keeps the invariant every event has a next state |
| `ServerRun.SnapshotOpens` | src/server/server.c:185-202 | the snapshot of every reachable state opens to exactly the files of the table of some earlier turn, each once, among them every file of the present table with its last recorded contents |
| `ServerRun.SnapshotExactly` | src/server/server.c:163-199 | a scan leaves a snapshot of exactly the table if and only if it finds something fresh, or the snapshot was exact and every file of the table is still listed |
| `ServerRun.BroadcastExactly` | src/server/server.c:163-182 | a broadcast carries exactly the listed files that are new or have a new time stamp and are listed once, with their contents |
| `ServerRun.BroadcastReaches` | src/func_lib/thread_func.c:47-91 | the message goes to the socket of every occupied slot |
| `ServerRun.ScanFollows` | src/func_lib/file_func.c:306-310 | a scan makes the table follow the list if and only if the table was not empty or nothing is listed |
| `ServerRun.EmptyStays` | src/func_lib/file_func.c:306-310 | an empty table stays empty in every turn, and its snapshot stays what it was |
| `ServerRun.EmptyForever` | src/func_lib/file_func.c:306-310 | once its table is empty a server keeps an empty table and its old snapshot for the rest of the run |
| `ServerRun.ClobberExactly` | src/func_lib/serialize_func.c:111-127 | a client that applies a snapshot holds what it should exactly if files with the same target have the same contents |
| `Server.FileServer.Start` | src/server/server.c:47-64 | the state before the loop: the listed files in the table, unmarked, and a snapshot of all of them |
| `Server.FileServer.AddClient` | src/func_lib/socket_func.c:325-336 | if there is a free slot, the first one gets the socket and all others are as before; otherwise nothing changes |
| `Server.FileServer.AcceptClient` | src/server/server.c:114-125 | an accepted connection is a step of the state machine |
| `Server.FileServer.CheckClients` | src/server/server.c:128-145 | exactly the slots of closed connections are cleared, and that is a step of the state machine |
| `Server.FileServer.Broadcast` | src/func_lib/thread_func.c:47-91 | the message is sent once for every occupied slot |
| `Server.FileServer.PushChanges` | src/server/server.c:165-202 | the marked files are broadcast, the snapshot is made anew from everything, and all marks are cleared |
| `Server.FileServer.ScanFiles` | src/server/server.c:159-204 | a turn that scans the list does what the state machine says of a scan |
| `Server.FileServer.HearAndScan` | src/server/server.c:146-204 | a turn with a session on a slave is a step of the state machine |
| `Server.FileServer.Loop` | src/server/server.c:106-210 | the loop, for any sequence of events, is a run of the state machine |
| `ServerRun.AlwaysReadable` | src/server/server.c:114-178 | in every run every message sent to a client can be read to its end |
| `Client.FileClient.Run` | src/client/client.c:19-65 | the client's loop applies its messages one after the other, as the whole-run theorem takes it to |
| `Client.FileClient.Receive` | src/client/client.c:19-65 | applying one message stores exactly the files it carries |
| `Client.ClientsKeepUp` | src/client/client.c:19-65 | in every run every client can apply everything it has been sent, one message after the other |
| `Comparison.CompareToIs` | src/func_lib/serialize_func.c:337-374 | after the master's list old records keep their places, each compared with its line, and every unknown path has a marked record |
| `Exchange.WantedAreMarked` | src/func_lib/serialize_func.c:361-373 | the slave marks exactly the listed paths that it does not know or whose digest compares different |
| `Exchange.RequestExactly` | src/func_lib/serialize_func.c:484-508 | the request names exactly the wanted paths, each once |
| `Exchange.MarkToExactly` | src/func_lib/serialize_func.c:237-260 | decoding a request marks exactly the requested paths the master knows, on top of the marks there were |
| `Exchange.RequestedExactly` | src/func_lib/thread_func.c:224-230 | a request that comes between two scans marks the known paths it names, and changes nothing else of the server |
| `Convergence.DataExactly` | src/func_lib/thread_func.c:239-249 | the data message names exactly the marked paths, each once, with the master's contents |
| `Convergence.DeliveredExactly` | src/func_lib/serialize_func.c:511-517 | what becomes of every path of the slave: marked files are delivered, the list file is rewritten, everything else is untouched |
| `Convergence.AsksOrSame` | src/func_lib/serialize_func.c:365-373 | with up-to-date digests that tell contents apart, a listed path is asked for or already has the master's contents |
| `Convergence.SessionConverges` | src/func_lib/serialize_func.c:436-526 | after an exchange whose data covers the request, the slave has the master's contents at every listed path but its list file, and no other change |
| `Convergence.AloneExactly` | src/func_lib/serialize_func.c:365-373 | an undisturbed exchange converges on every listed path exactly if each was asked for or had the master's contents after the list file was rewritten; with an empty slave table, exactly if each had them before |
| `Convergence.StrncmpExactly` | src/func_lib/serialize_func.c:369 | two digests compare equal exactly if they are equal or agree up to a zero byte they share |
| `Convergence.StrncmpBlind` | src/func_lib/serialize_func.c:369 | there are different digests that compare equal |
| `MasterThreads.StepKeeps` | src/func_lib/thread_func.c:165-255 | every step of any session keeps the invariant of all sessions |
| `MasterThreads.StepElsewhere` | src/func_lib/thread_func.c:104-132 | a step touches no other session, keeps all records but for their marks, and clears no mark |
| `MasterThreads.InterleavingInv` | src/func_lib/thread_func.c:104-132 | the invariant holds in every state of every interleaving |
| `MasterThreads.SlavesConverge` | src/func_lib/thread_func.c:104-255 | in every state of every interleaving, a slave whose session is over has converged |
| `MasterThreads.FrameCovers` | src/func_lib/thread_func.c:230-252 | the data message to a slave carries everything that slave requested and the master lists, with the master's contents, and perhaps more |
| `MasterThreads.MarksAsked` | src/func_lib/serialize_func.c:237-260 | in every interleaving a marked path was marked before the round or has been requested by some slave of it |
| `MasterThreads.DataAsked` | src/func_lib/thread_func.c:230-252 | a data message carries exactly the files marked when it is made: in a round without earlier marks, none that no slave of the round has requested |
| `MasterThreads.NeverStuck` | src/func_lib/serialize_func.c:436-442 | a session can take a step if and only if it is not over and its slave has not got the list with an empty table |
| `MasterThreads.SessionStops` | src/func_lib/serialize_func.c:436-442 | when no session can take a step, a session is over if and only if its slave's table was not empty |
| `MasterThreads.RoundStops` | src/func_lib/thread_func.c:118-129 | when no session can take a step, all are over if and only if no slave's table was empty |
| `MasterThreads.RoundEnds` | src/func_lib/thread_func.c:118-129 | every interleaving runs out of steps: there are no more of them than the requests allow |
| `MasterThreads.RoundGoesOn` | src/func_lib/thread_func.c:118-129 | wherever a round has got to, it can be gone on with until no session can take a step |
| `MasterThreads.RoundCompletes` | src/func_lib/thread_func.c:104-132 | from every start of a round whose slaves have something in their tables, there is an interleaving that ends with all sessions over and all slaves converged |
| `MasterThreads.MarksForgotten` | src/server/server.c:160-163 | the outcome of the next scan does not depend on the marks a round has left |
| `Session.SendList` | src/func_lib/thread_func.c:165-181 | the master sends the list of its table |
| `Session.MarkRequest` | src/func_lib/thread_func.c:224-230 | the received request marks exactly its known paths |
| `Session.AnswerRequest` | src/func_lib/thread_func.c:192-255 | the data message is made of the marks after decoding, exactly if there was a request |
| `Session.OnList` | src/func_lib/serialize_func.c:484-508 | the slave on a list: table and list file as specified, and the request sent unless nothing is wanted |
| `Session.TakeMessage` | src/func_lib/serialize_func.c:450-518 | one message of the master is one step of the slave; it hangs up exactly if it does not answer, as always on data |
| `Session.SlaveServerAction` | src/func_lib/serialize_func.c:436-526 | the slave takes messages until the data has come, nothing is wanted or the master hangs up; an empty table makes it give up |
| `ListFile.LineExactly` | src/func_lib/file_func.c:317-328 | a line with a path on it gives that path exactly if it does not begin with a dot and has no space |
| `ListFile.RelativeLine` | src/func_lib/file_func.c:127-149 | a line that begins with a dot names, up to its end, a path below the directory of the list file |
| `ListFile.RealpathLine` | src/func_lib/file_func.c:135-149 | without a directory of the list file such a line names what realpath answers, or nothing if that fails |
| `ListFile.WordLine` | src/func_lib/file_func.c:317-328 | any other line names its first word, whatever the directory of the list file is |
| `ListFile.LineEndExactly` | src/func_lib/file_func.c:317 | a line ends after the first newline, at the end of the text, or after 4095 bytes |
| `ListFile.RelativeOnly` | src/func_lib/file_func.c:317-328 | a list with one such line has exactly the file of that name below the directory of the list, if it exists |
| `ListFile.ListedLine` | src/func_lib/file_func.c:317-328 | reading one printed path gives at most one path, and it exactly if it is plain, even if it fills the line buffer |
| `ListFile.ListFileRoundTrip` | src/func_lib/serialize_func.c:337-375 | reading the printed list gives the same paths in the same order exactly if every path is plain |
| `ListFile.KeysFollow` | src/server/server.c:159-163 | a scan of a printed list whose files exist leaves exactly its paths in the table if and only if the table was not empty, or the list is |
| `Rounds.AfterSession` | src/func_lib/serialize_func.c:436-526 | a slave whose session in an interleaving is over had a table; it has been compared with the master's list, and the list file holds the master's paths |
| `Rounds.KeysConverge` | src/server/server.c:146-163 | for every session of every interleaving that is over, the turn with it and the scan behind it leaves exactly the master's paths in the slave's table |
| `Rounds.SessionAnswers` | src/func_lib/thread_func.c:230-249 | a session that is over has delivered every file the slave asked for, with a new time stamp |
| `Rounds.RunDigests` | src/func_lib/hash_table_func.c:240-252 | in every state of every run, exchanges included, every record has the digest of its version |
| `Rounds.RunFresh` | src/func_lib/hash_table_func.c:240-252 | so recorded digests are those of the files as long as these rest |
| `Rounds.MasterReady` | src/server/server.c:199-204 | at every turn of its run a master meets what a round requires of its table |
| `Rounds.SlaveReady` | src/server/server.c:146-156 | at every turn of its run, whatever exchanges it has been through, a slave meets what a round requires of its table |
| `Rounds.RoundConverges` | src/server/server.c:146-204 | after a turn with a session, at any point of a slave's run, its table has exactly the master's paths, and its up-to-date clients hold the master's contents of each path a/b at their directory, a slash and b |
| `Witnesses.ListedTwice` | src/func_lib/hash_table_func.c:240-243 | a new file named by two lines enters the table unmarked |
| `Witnesses.SameBaseName` | src/func_lib/serialize_func.c:111-127 | two files with one base name and different contents: no client ends up with both |
| `Witnesses.EmptyMisses` | src/func_lib/file_func.c:306-310 | an empty table misses a listed file that exists |
| `Witnesses.Lingers` | src/server/server.c:163-199 | a dropped line: the table loses the file, the snapshot does not |
| `Witnesses.EmptySlaveHangs` | src/func_lib/serialize_func.c:436-442 | a round with one slave, whose table is empty, stops with its session not over |
| `Witnesses.SlaveKeeps` | src/func_lib/serialize_func.c:369 | a slave keeps a file that differs from the master's, with fresh digests on both sides |
| `Witnesses.SpaceIsCut` | src/func_lib/file_func.c:317-328 | a path with a space is not read back |
| `Witnesses.DotIsRelative` | src/func_lib/file_func.c:127-149 | the path ./a is not read back |
| `Witnesses.DotIsFound` | src/func_lib/file_func.c:127-149 | the line ./a of a list in /d finds /d/./a |
| `Witnesses.PlacesOfTwo` | src/func_lib/serialize_func.c:116-127 | two files of one directory part each arrive under their own names |
| `Witnesses.ThreeMessages` | src/func_lib/serialize_func.c:165-208 | a whole message of each type, byte by byte |
| `Witnesses.RunWorks` | src/server/server.c:106-205 | a run in which a client connects and a file changes; the client ends up with the new contents |
| `Witnesses.RoundWorks` | src/func_lib/thread_func.c:104-132 | a round at whose end a slave has the master's file and still its own other one |
| `Witnesses.JustBelow` | src/func_lib/compress_func.c:102-109 | a payload one byte short of 4 GiB that is not restored |

## Left out

- Socket set-up, `select`, time-outs, partial `recv` and `send`, thread creation, detach and join: messages arrive whole and in order, and threads are joined.
- SHA-256 and zlib: parameters of the model, with their promises as hypotheses. The slave's recomputed digest, made with a hash context shared by all files, is arbitrary.
- The real file system: a map from paths to contents and time stamps. `dir_path_create`, aliases of a path and permissions are not modelled; opening for writing succeeds or not as `Host.canOpen` says.
- The hash function: any function of the key.
- Allocation failure and the freeing of memory: allocation always succeeds.
- `HASH_SELECT`, `HASH_REPLACE`, the ordered insertions and the bloom filter: the program does not use them.
- Printing, timing, argument prompts, `process_sync_server`, `server_address_set`, `flie_name_remover` and `clear_file_list`: no state worth proving.
- Other threads between the sizing and the writing of a data message: `MasterThreads.Step` takes them as one step, as a mark set in between would make the two disagree.
- `select_init` and the choice of the ready sockets: the events of the loop say which sockets are ready.
- A session on a slave and the scan behind it are one turn of the loop (`ServerRun.Exchanged`); what the session does to the slave's files is part of the file system the scan meets.
- The body of a list scan is one shared by `process_sync_file` and `update_check_sync_file` as far as reading a line goes; the three writers share one loop with the entry of their type.
- UtHash.FileList.ExpandBuckets: does not model 32-bit wrap-around of the table's counters, because a table of 2^31 buckets is out of reach of the memory it would need.
- Serialize.FileSerialized: requires that every marked file can be opened, because the source passes a null stream to `fread` otherwise.
- FileFunc.UpdateCheckSyncFile: requires that existing listed paths fit their buffers and have a slash, because the source takes the part behind the last slash unconditionally.
- Session.SendList: requires a non-empty table, because the thread is not started for an empty one.
- A server is either a master or a slave; the events of a run do not exclude one that is both.
- MasterThreads.SlavesConverge: requires that each message of a round stays within the codec's limit, because beyond it compression does not restore the payload.
- Sort.HashSrt: requires fewer than 2^32 items, because the table counts them in an `unsigned int`.
