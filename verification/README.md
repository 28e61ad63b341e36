# A verified model of mini-db

mini-db is a key/value store. Each database is one append-only log file, an in-memory index of it, and one worker task
behind a bounded queue; clients speak a small binary protocol. This project models the three parts of it that are hard
to get right and proves, for all inputs and all runs, what each is for.

**The log and its worker.** `Bytes`, `Words` and `Crc` are the byte layout and CRC-32, bit by bit. `Remainder` proves
that the register is CRC-32 by the definition: the remainder of the data divided by the generator polynomial of
section 8 of RFC 1952. `Log` is the record format: printer, parser, the scan of a whole file, replay. It holds for
every checksum function. `Wal` is the log object itself: a file with a cursor, the recovery loop in 64-bit arithmetic,
append and fsync on a reused hasher. `Detect` says which corruptions CRC-32 catches. `Crash` is the life of one file
as a state machine: bytes written piecemeal, fsyncs that work or fail, stops, kills, recoveries that truncate and
choose a new sync interval, and power losses that keep the last synced image plus any part, in order, of what happened
to the file since. `Space` is the arithmetic of the info query, and `Worker` the receive loop, whose every write is
proved to be a run of `Crash`.

**The manager and its clients.** `Service` says what clients are promised: a map from names to key/value maps, and
histories some sequential run explains. `Manager` is the code as interleaved steps: a copy-on-write map read without a
lock, creates and drops under a lock, cloned senders that outlive the map entry, bounded queues, workers that exit
when nobody holds a sender, an exit notification kept as a permit, peers that stop taking bytes, connections that die
with a response unsent. Any number of clients and databases take part. `ManagerInv` is the invariant of every step,
`Linear` the proof that every run is linearizable, `Drain` says exactly when a drop's wait moves on, `Calls` says the
same of every call, `Runs` has the remaining whole-run results, and `InTurn` draws from linearizability what calls on
one database get that never overlap.

**The wire.** `Wire` has the per-operation request layouts, the server's parser with its order of checks, the
responses, and what a connection does with a whole byte stream. `Connection` has both ends as they run, over a socket.
`Layers` ties requests to service operations, service operations to worker queries, and replies back to responses.
`Server` puts connections that carry bytes in front of the manager machine, so that one history and one sequential run
explain the bytes of all connections of a run at once. `Deeds` says what each step of the server does to databases and
logs, in terms of the request it works for. `Sessions` says what a connection reads back that has a database to
itself, down to the bytes, `Happens` that such runs exist, and `Vectors` writes out one example of everything that
goes to disk or wire.

The manager machine keeps a sequential run on the side (`lin`), with the positions of a drop in progress (`dropAt`,
`dropTime`), and `accepted` and `answered` lists; no guard of a step reads them. Creates and drops enter that run when
they store the map. A query enters when its worker finishes it or, if the drop of its database has stored its map by
then, just before that drop. The final theorem speaks of calls and responses only.

Where the proofs found something a reader of the code may not expect:

- A failed append is not undone, and the worker carries on behind what it left (`Wal.Wal.Append`).
  `Log.FailedAppendIff`: the next record is recovered where it was written if and only if the failed append left
  nothing or its whole record.
- After a failed fsync the record stays in the log but not in the index (`Worker.FailedSyncDiverges`).
  `Crash.IndexIsReplay` gives the relation, and `Crash.IndexIsReplayIff` says when the index still equals the replay
  of the whole log: if and only if no key's last record is a failed one that would have left it with something else.
- Lengths are cast to 32 bits on write. `Log.ParseOfEncode`: a record can be read back if and only if both lengths
  fit.
- The client's length casts wrap: one byte for the database name, four for key and value. Its command loop refuses
  long names for create, info and drop (`src/bin/client.rs:145-184`), but `USE` and `--db-name` select any database
  for get, set and delete (lines 57 and 197-203). `Wire.SentMisreadIff`: of what the client lets through, the server
  accepts a frame as a different request if and only if it has a key, a length wraps, and the request the server
  hears, with name, key and value cut out of the wrapped lengths, has no fault. `Wire.LongNameHitsAnother`: with a
  database name of 257 letters selected, a set writes to the database named by its first letter.
- `README.md:28-29` of mini-db shows one layout for all requests; the code uses a different layout for each operation,
  and so does the model.
- `src/manager.rs:151` expects queries in flight to be dropped or to hang during a drop. None is dropped:
  `Runs.SendNeverFails` and `Runs.AnsweredInOrder`. But the cloned sender lives until the response is written
  (`src/bin/main.rs:386-403`), so a peer that takes no bytes can hold the drop up, and with it the lock.
  `Drain.WaitIff` says exactly when, `Drain.StuckHappens` that it is reachable, and `Drain.StuckStays` that it lasts
  until a peer reads or goes away.
- Dropping a database that does not exist closes the connection without a response (`NoReply`), and an operation on a
  missing database closes it after the response.
- `shutdown_all_workers` swaps the map without the lock. The model lets it happen only when every connection is gone,
  as the server does.

## Model

| member | source | states |
|---|---|---|
| Bytes.Le32RoundTrip | src/wal.rs:218-221 | little-endian 32-bit lengths read back as written |
| Bytes.FromLe32RoundTrip | src/wal.rs:94-105 | any four bytes are the layout of the length they read as |
| Words.LeWordRoundTrip | src/wal.rs:227 | a checksum word reads back as written |
| Words.FromLeWordRoundTrip | src/wal.rs:129-134 | any four stored bytes are the layout of the word they read as |
| Crc.FoldAppend | src/wal.rs:293-297 | hashing piece by piece equals hashing the concatenation |
| Crc.FoldInjective | src/wal.rs:285-301 | equal registers after equal data were equal before it: every CRC step can be undone |
| Crc.FoldWindow | src/wal.rs:285-301 | feeding up to four bytes equals mixing them in as one word and stepping all their bits |
| Crc.BurstChangesFold | src/wal.rs:285-301 | replacing up to four consecutive bytes by others always changes the register, whatever surrounds them |
| Crc.Residue | src/wal.rs:226-227 | data followed by a word leaves one fixed register exactly when the word is the data's checksum |
| Crc.Hasher.Update | src/wal.rs:293-297 | the running state is the bitwise fold of all bytes fed so far |
| Crc.CrcHash | src/wal.rs:285-301 | five updates on a reused hasher give the CRC of header, key and value together, and leave the hasher fresh |
| Remainder.ChecksumIsRemainder | src/wal.rs:285-301 | a word is the checksum of the data if and only if its complement is the remainder of the data, as a polynomial over two elements, divided by the generator with the exponents of CRC-32 |
| Remainder.CheckValue | src/wal.rs:285-301 | the checksum of the ASCII digits 1 to 9 is 0xCBF43926 |
| Log.ParseOfEncode | src/wal.rs:208-227 | a printed record parses back, whatever follows it, if and only if both lengths survive the 32-bit cast |
| Log.EncodeOfParse | src/wal.rs:86-151 | an accepted record is valid and stands in the file byte for byte as the printer writes it |
| Log.ParseIff | src/wal.rs:86-151 | the parser accepts a record exactly when it is valid and its encoding starts the bytes |
| Log.ParseMore | src/wal.rs:118-121 | a record that parses parses the same when more bytes follow |
| Log.EncodeAllAppend | src/wal.rs:215-239 | the bytes of two record lists are the bytes of their concatenation |
| Log.ScanOfEncodeAll | src/wal.rs:86-166 | any records followed by any bytes: recovery finds them all, then whatever it finds in the rest |
| Log.ScanRoundTrip | src/wal.rs:86-166 | recovering an intact log gives back exactly its records |
| Log.EncodeAllInjective | src/wal.rs:215-227 | two logs with the same bytes hold the same records |
| Log.OffsetFinds | src/wal.rs:236-241 | the offset an append returned still finds its record after any number of later appends |
| Log.ScanExact | src/wal.rs:86-166 | for arbitrary bytes: the accepted prefix is the encoding of the recovered records and nothing parses after it |
| Log.ScanIff | src/wal.rs:86-166 | recovery of arbitrary bytes finds exactly the list of valid records that fills the front and cannot be continued |
| Log.ScanMonotone | src/wal.rs:118-121 | cutting a file anywhere only drops records at its end |
| Log.ScanCut | src/wal.rs:175-191 | cutting the bad tail off, at any point of it, does not change what is recovered |
| Log.TornLog | src/wal.rs:118-121 | a log cut after any number of bytes keeps exactly the records that end by then, for every checksum function |
| Log.RecoveryComposes | src/wal.rs:175-239 | recovering twice finds nothing new; records appended after a recovery are later found behind the recovered ones |
| Log.FailedAppendIff | src/wal.rs:230-239 | after a failed append that left any number of bytes, the next record is recovered where it was written if and only if nothing or the whole record was left |
| Log.ReplayAppend | src/wal.rs:153-163 | replaying two lists in turn equals replaying their concatenation |
| Log.ReplayLastWins | src/wal.rs:153-163 | a key is live with a value exactly when its last record sets it to that value |
| Detect.CorruptRecordRejected | src/wal.rs:128-147 | a record with up to four consecutive bytes changed outside its length fields never parses |
| Detect.CorruptionStopsRecovery | tests/wal_test.rs:177-205 | with one such corruption anywhere in a log of any length, recovery keeps exactly the records before it |
| Detect.OneByteCorrupts | src/wal.rs:128-147 | any single changed byte outside the length fields is such a corruption |
| Wal.SeekMatters | src/wal.rs:175-179 | after a truncating recovery an append is recovered if and only if the cursor was moved to the new end; from beyond, zeros end the log |
| Wal.ReadEntry | src/wal.rs:86-151 | one turn of the recovery loop takes the parser's verdict, without overflow or bad index, and leaves the hasher fresh |
| Wal.BuildIndex | src/wal.rs:70-168 | the loop returns the size, number and replay of exactly the records a scan finds |
| Wal.Wal.Init | src/wal.rs:35-192 | opening leaves the recovered records' bytes in the file, synced if cut, cursor and length at their end, and returns their replay; it fails only if the file does not sync |
| Wal.Wal.Append | src/wal.rs:197-242 | refuses bad operations, empty keys and deletes with a value, changing nothing; else adds one encoded record and returns where it starts, or fails leaving any front of it with length and count unchanged |
| Wal.Wal.FillBuffer | src/wal.rs:215-227 | the batched buffer is the encoding of the record, checksum of header, key and value included |
| Wal.Wal.Fsync | src/wal.rs:252-256 | a successful sync makes the medium equal the file; a failed one changes nothing; on a file that syncs it succeeds |
| Crash.SurvivorsRecover | src/wal.rs:86-179 | whatever a power loss leaves recovers to a prefix of the log that has every durable record |
| Crash.SurvivesIff | src/wal.rs:252-256 | without a truncation since the last sync, what a power loss may leave is exactly anything from the synced file to the present one, torn at any byte |
| Crash.AnyFileStarts | src/wal.rs:35-60 | a run may start from any bytes at all |
| Crash.AnythingHappens | src/wal.rs:86-256 | in every reachable state the process can go on, be killed, and lose power back to the synced file; no step the file could take is ruled out |
| Crash.StepInv | src/wal.rs:86-256 | file, earlier images, log, index and loss bound agree after every step: partial writes, syncs, failures, stops, kills, power losses, recoveries, truncations cut short |
| Crash.RunInv | src/wal.rs:86-256 | so they agree in every state of every run, whatever bytes were found at first |
| Crash.RecoveryKeepsDurable | src/wal.rs:86-179 | every recovery in every run gives the replay of a prefix of the log before it that has every durable record |
| Crash.DurableForever | src/wal.rs:175-179 | a record once durable is in the log of every later state, through any number of crashes and recoveries |
| Crash.SyncMakesDurable | src/wal.rs:252-256 | a successful sync makes every record of the log durable |
| Crash.BoundedLoss | src/worker.rs:61-62 | without fsync failure a power loss discards fewer answered writes than the interval, plus what the worker found unsynced, and keeps at most one unanswered |
| Crash.PowerLossBounded | src/worker.rs:130-173 | if power losses are the only accidents, each discards fewer answered writes than the interval of that start; with interval 1 none |
| Crash.IndexIsReplay | src/worker.rs:130-173 | the index is the replay of the log without exactly the records whose fsync failed; with none failed, of the whole file |
| Crash.IndexIsReplayIff | src/worker.rs:136-141 | the index equals the replay of all answered records if and only if no key's last record is a failed one with another outcome than the kept records before it |
| Worker.FailedSyncDiverges | src/worker.rs:136-141 | a run after which the log has a record and the index does not have its key |
| Space.ReplaySize | src/worker.rs:72-78 | live entries, headers included, never take more than the records they came from |
| Space.LiveFitsFile | src/worker.rs:72-78 | in every idle state of every run, live entries with their headers fit the file |
| Space.InfoIsSane | src/worker.rs:72-101 | reported memory never exceeds reported disk, even saturated, and shortest, mean and longest key are in order |
| Space.EntryBytes | src/worker.rs:73-78 | the fold over the index sums key and value lengths |
| Space.KeyLengths | src/worker.rs:81-87 | the fold over the keys finds their shortest, longest and total length |
| Space.Info | src/worker.rs:72-101 | the packet's fields are exact: attained extremes, floor mean, saturated sizes, zeros for an empty index |
| Worker.WriteIsRun | src/worker.rs:131-141 | append, count, sync when due, apply: the worker's write is a run of the file's life |
| Worker.DatabaseWorker.AppendQuery | src/worker.rs:131-134 | a write goes to the log as its record, or the log fails it and keeps its records and length |
| Worker.DatabaseWorker.Store | src/worker.rs:130-173 | one write: the log grows by its record, index follows unless a due fsync failed, the reply is the right one; on a file that syncs it never fails, and a due write leaves the whole file on the medium; after a failed append nothing but the file has changed and the reply is a failure |
| Worker.DatabaseWorker.Execute | src/worker.rs:64-175 | one query of any kind: right reply, right index, right log; only a due fsync can fail, and none does on a file that syncs; the medium is the whole file after a due write and is left alone otherwise |
| Worker.DatabaseWorker.Serve | src/worker.rs:63-175 | on a file that syncs, a worker that served any queue loses to a power loss, whatever image it leaves, fewer answered writes than its interval |
| Worker.DatabaseWorker.ExecuteQueries | src/worker.rs:60-180 | a whole queue is answered in order, each query once, on the index its predecessors left; then a final sync, after which the medium is the whole file if the file syncs |
| Worker.Open | src/manager.rs:214-226 | opening after a stop or crash gives a worker with the configured interval, at least 1, on a prefix of the old log with every durable record, its index their replay; on a file that syncs it never fails, and if the file was synced or cut the worker starts with nothing to lose |
| Service.FitsBeforeDrop | src/manager.rs:152-156 | a query on a database fits in just before its drop: the sequential run stays legal and ends in the same state |
| ManagerInv.StepCore | src/manager.rs:110-237 | every step keeps the manager's invariant: lock, maps, senders, queues, workers, files |
| Linear.StepLin | src/manager.rs:110-175 | every step keeps the recorded sequential run legal, in real-time order, and equal to what clients can reach |
| Linear.LateQueryFits | src/manager.rs:152-153 | a query finished after its database was unpublished fits in just before the drop |
| Linear.RunIsLinearizable | src/manager.rs:110-175 | every history of get, set, delete, create and drop, at any moment of any run, is linearizable, connections that die before their response included |
| Runs.OneWriterPerLog | src/manager.rs:111-156 | no two running workers ever own the same log |
| Runs.AnsweredInOrder | src/worker.rs:63-64 | queries are answered once, in queue order, within the queue's bound; a worker that has exited has answered all |
| Runs.FileGoesLast | src/manager.rs:152-156 | before a drop removes the file, its worker has exited and answered all it accepted, and nobody owns a sender |
| Runs.SendNeverFails | src/bin/main.rs:386-403 | whoever owns a sender finds the worker running, and a query sent is in its queue or in its hands |
| Runs.IndexAgreesWithLog | src/worker.rs:130-173 | in every state of the concurrent machine a running worker's index is the replay of its log |
| Runs.AnyLogsStart | src/manager.rs:46-98 | a server may start on any logs, and its databases are then their replays |
| Runs.RecreatedStartsEmpty | src/manager.rs:214-215 | a create never finds an old log under its name, so the database starts empty |
| Runs.MapSteps | src/manager.rs:112-148 | a create adds one name to the map as published at that moment, a drop takes one away, nothing else touches it |
| Runs.NoLostUpdates | src/manager.rs:26 | until shutdown the published names are those the successful creates and drops leave, and default is among them |
| Runs.ViewsWerePublished | src/manager.rs:169 | a lock-free reader looks at a whole map that was published at some moment |
| Drain.NoNewSenders | src/manager.rs:148 | once a drop has stored its map, no client comes to own a sender of the database |
| Drain.LeftNeverGrows | src/manager.rs:152-153 | no step of anyone raises what a waiting drop has left to wait for |
| Drain.WaitMovesOn | src/manager.rs:219-226 | at every moment of the wait that is not stuck the server can take a step that lowers it: no deadlock, no lost notification |
| Drain.WaitIff | src/bin/main.rs:386-403 | the server can bring the wait closer to its end if and only if it is not the case that the worker is idle and every sender left is with a connection whose peer does not take its response |
| Drain.StuckStays | src/manager.rs:137-153 | a stuck drop stays stuck, holding the lock, until one of the peers reads or goes away |
| Drain.StuckHappens | src/bin/main.rs:348-362 | a run that reaches a stuck drop |
| Drain.WaitEnds | src/manager.rs:152-153 | over runs: a wait takes at most as many steps that bring it closer as were left at its start, and the server can take one unless stuck |
| Calls.CallMovesIff | src/manager.rs:110-176 | for every call in every reachable state: the server can take a step that brings it closer to its answer if and only if it is not held, by a peer that takes no bytes, the lock in other hands, a full queue, or a stuck drop |
| Calls.NeverFarther | src/manager.rs:110-176 | no step of anyone takes any call farther from its answer |
| Calls.CallEnds | src/bin/main.rs:331-436 | over runs: a get, set, delete or create is over after a number of such steps fixed by the queue's bound, and one can be taken unless the call is held |
| Calls.HolderMoves | src/manager.rs:111-137 | whoever has the lock has an enabled step of its own, unless it is a drop that waits for its worker |
| Calls.FullQueueMoves | src/worker.rs:63-64 | the worker behind a full queue has a step, and that step brings some call closer |
| Calls.HaltsIff | src/manager.rs:110-176 | the server can bring no call closer if and only if every call in hand waits for a peer to take bytes, its own or one behind a stuck drop |
| Calls.PeersAreFree | src/bin/main.rs:242-247 | between requests a client may ask for anything or leave; a peer may stop reading, and one that reads again or goes away frees its response |
| Calls.ShutdownEnds | src/manager.rs:191-205 | with all clients gone the server can shut down, and every worker can then exit, with all queries answered and log and index in agreement |
| Calls.CreateHappens | src/manager.rs:111-132 | a run in which a create of a new name is answered and the name is there, empty, with a log |
| Calls.DropHappens | src/manager.rs:137-161 | a run in which a drop is answered and name, worker and log are gone |
| InTurn.RepliesInTurn | src/bin/main.rs:386-403 | if no two calls on a database overlap, each is answered as a sequential service would after the earlier ones, whatever happens to other databases |
| InTurn.CreatesAlternate | src/manager.rs:112-131 | between two successful creates of one name lies a successful drop of it |
| InTurn.StaleReadIsRefused | src/worker.rs:119-128 | a get that misses a set answered before it was sent is not linearizable |
| Wire.RequestVerdict | src/bin/main.rs:285-436 | every request whose lengths fit is accepted as sent, or rejected for its first fault in the server's order, whatever follows |
| Wire.EncodeOfAccepted | src/bin/main.rs:285-436 | an accepted request has no fault and occupies exactly the bytes its printer writes |
| Wire.AcceptedIff | src/bin/main.rs:285-436 | a request is accepted exactly when it fits, has no fault, and its encoding starts the bytes |
| Wire.VerdictIsFinal | src/bin/main.rs:461-467 | a verdict never changes when more bytes arrive |
| Wire.VerdictIsBounded | src/bin/main.rs:240 | the server decides within a number of bytes fixed by its limits |
| Wire.AcceptedIsLoggable | src/bin/main.rs:367-399 | what the server accepts, the log can hold |
| Wire.VerdictOnHeard | src/bin/client.rs:240-292 | for every request, whatever its lengths: the server's verdict is that on the request it hears after the casts |
| Wire.MisreadIff | src/bin/client.rs:240-292 | the server accepts a different request if and only if a length wraps and what it hears has no fault |
| Wire.SentMisreadIff | src/bin/client.rs:145-203 | of what the client's command loop lets through, requests without a key get the verdict they deserve, and the rest is misread if and only if a length wraps and what the server hears has no fault |
| Wire.LongNameHitsAnother | src/bin/client.rs:197-203 | with a database name of 257 letters selected, a get reads and a set writes another database |
| Wire.ReadOfEncode | src/protocol.rs:170-194 | a response arrives as sent if and only if its length survives the 32-bit cast |
| Wire.EncodeOfRead | src/protocol.rs:189-211 | a response read with a known status occupies exactly its encoding; an unknown status reads as an internal error |
| Wire.ResponsesRoundTrip | src/protocol.rs:189-211 | any list of responses is read back whole and in order |
| Wire.InfoRoundTrip | src/protocol.rs:105-133 | an info packet reads back as written |
| Wire.ServePipelined | src/bin/main.rs:242-444 | a pipelined list is served request by request and answered in order, then the connection goes on with what follows |
| Wire.ServeExact | src/bin/main.rs:242-444 | for any bytes: the served requests fill the front exactly, each but the last was answered and kept the connection open, the responses are their answers in order, and each way to end has its exact cause |
| Wire.EncodeRequestsInjective | src/bin/client.rs:222-292 | two request lists with the same bytes are the same list |
| Wire.PipelineRoundTrip | src/bin/main.rs:242-444 | end to end: a client that pipelines a list and reads as many responses gets the answer to each, in order |
| Connection.SendDbOp | src/bin/client.rs:240-245 | the field-by-field sender of create, info and drop writes the encoding |
| Connection.SendKeyOp | src/bin/client.rs:263-292 | the field-by-field senders of get and delete write the encoding |
| Connection.SendSet | src/bin/client.rs:273-282 | the field-by-field sender of set writes the encoding |
| Connection.SendAll | src/bin/client.rs:222-292 | a list sent without waiting is the encodings in order |
| Connection.ReceiveResponse | src/protocol.rs:189-211 | the reader returns the next response and leaves the bytes behind it |
| Connection.SendResponse | src/protocol.rs:170-186 | a response goes out as status, length, payload |
| Connection.ReceiveNamed | src/bin/main.rs:285-325 | reading and validating a create, info or drop takes the parser's verdict and consumes exactly the frame |
| Connection.ReceiveKeyed | src/bin/main.rs:331-419 | the same for get, set and delete, with checks and responses in the server's order |
| Connection.HandleClient | src/bin/main.rs:230-447 | the request loop serves, answers and ends as the connection's specification says, for any incoming bytes |
| Layers.AcceptedIsServable | src/bin/main.rs:341-443 | an accepted keyed request has a key and lengths its worker and log take |
| Layers.QueryRefines | src/worker.rs:119-173 | without fsync failure a worker's answer, index and log are the service's |
| Layers.QueueRefines | src/worker.rs:63-175 | a worker that serves a whole queue gives every reply the service gives one operation at a time |
| Layers.RepliesArrive | src/bin/main.rs:561-567 | a client that reads its response knows which reply the service gave |
| Layers.ConnectionEnds | src/bin/main.rs:386-392 | a connection stays open after a reply exactly when the model of the manager keeps it open |
| Server.StepInv | src/bin/main.rs:242-444 | every step of the whole server, bytes in and out included, keeps each connection's bytes in step with the history |
| Server.BytesAreExplained | src/bin/main.rs:176-192 | over runs: one linearizable history explains all connections at once; the bytes read are its calls in order, the bytes written the replies to them in order, and one response more only for bytes that are refused, naming their fault |
| Server.Decoded | src/bin/main.rs:242-444 | the requests and responses of a connection can be found from its bytes alone, and in one way only |
| Deeds.WorkIsAsAsked | src/worker.rs:119-173 | when a worker finishes, a get request has changed and logged nothing, a set has put and logged its pair, a delete has removed its key and logged that |
| Deeds.PublishIsAsAsked | src/manager.rs:125 | when a map with a new name is stored, the waiting request is a create of that name, and its database is empty |
| Deeds.UnpublishIsAsAsked | src/manager.rs:148 | when a map without a name is stored, the waiting request is a drop of that name |
| Deeds.LogsComeAndGo | src/manager.rs:155-156 | a log appears empty for a waiting create and goes for a waiting drop of its name |
| Deeds.NothingElse | src/bin/main.rs:242-444 | no other step, pings, refusals and responses included, changes a database or a log |
| Deeds.ListensMeansMoves | src/bin/main.rs:242-444 | whatever bytes come next, a server that waits for a request can serve, answer, refuse or end |
| Sessions.RunTurns | src/bin/main.rs:242-444 | in every run each connection has at most one call in hand |
| Sessions.AloneIsSequential | src/bin/main.rs:242-444 | on a database no other connection names, each response is that of a sequential service after the connection's earlier requests |
| Sessions.VisitAnswered | src/bin/main.rs:331-436 | in bytes: set, get, delete and get of one key in such a database are answered ok, the value, ok, and not found |
| Sessions.LifetimeAnswered | src/bin/main.rs:285-436 | in bytes: create, create, set, get, drop and get of a new name are answered created, exists, ok, the value, dropped, and database not found |
| Happens.ListHappens | src/bin/main.rs:331-436 | for any list of faultless gets, sets and deletes on the default database there is a run that reads and answers all of it |
| Happens.VisitHappens | src/bin/main.rs:331-436 | a run with the bytes and responses of `Sessions.VisitAnswered` |
| Vectors.RecordVectors | src/wal.rs:215-227 | a set and a delete record byte for byte, checksum included |
| Vectors.LittleEndian | src/wal.rs:218-221 | lengths go out least significant byte first |
| Vectors.BareVectors | src/protocol.rs:47-58 | stats, ping and close byte for byte |
| Vectors.NamedVectors | src/bin/client.rs:240-245 | create, info and drop requests byte for byte |
| Vectors.GetVector | src/bin/client.rs:263-270 | a get request byte for byte |
| Vectors.DeleteVector | src/bin/client.rs:285-292 | a delete request byte for byte |
| Vectors.SetVector | src/bin/client.rs:273-282 | a set request byte for byte |
| Vectors.StatusVectors | src/protocol.rs:152-166 | the status byte of every response |
| Vectors.FaultVectors | src/bin/main.rs:477-556 | status and text a client reads for each refused request |
| Vectors.ReplyVectors | src/manager.rs:114-159 | status and text a client reads for each reply of the service |
| Vectors.PingAnswered | src/bin/main.rs:274-278 | a ping is answered PONG and the connection stays open |
| Vectors.AsciiIsText | src/bin/main.rs:276 | a text goes out as one byte for each of its characters |
| Vectors.InfoVector | src/protocol.rs:105-115 | the order of the fields of an info packet |
| Vectors.FaultlessIff | src/bin/main.rs:471-556 | which requests are served: names of 1 to 64 allowed bytes, keys and values neither empty nor over their limit |
| Vectors.NameBytes | src/bin/main.rs:497-500 | the allowed bytes of a name are ASCII letters and digits, underscore and hyphen |
| Vectors.NamesAreFileNames | src/bin/main.rs:497-505 | no accepted name has a slash, a dot, a zero byte or a byte outside ASCII |
| Vectors.UnknownStatus | src/protocol.rs:205-208 | how the client shows a status it does not know |

## Left out

- Sockets, tasks, timers, signals, memory maps and real file calls: they are byte sequences, a cursor, a synced image,
  queues and interleaved steps. Tokio's `mpsc`, `oneshot`, `Notify`, the lock and `ArcSwap` are taken at their
  documented meaning; `crc32fast` is taken to compute CRC-32, which is what `Remainder.ChecksumIsRemainder` fixes.
- Runs of the worker that go on after a failed partial write: `Wal.Wal.Append` has them, the worker's queue loop and
  the crash machine assume a file whose writes complete, because the code does not recover. Log.FailedAppendIff shows
  what they cost.
- Power losses that let a later change of the file reach the disk before an earlier one since the same sync.
- Kill and then power loss: Crash.BoundedLoss counts separately the records a worker found unsynced when it started,
  and Crash.PowerLossBounded is the clean bound without kills.
- Wal.Wal.Append: file length and entry count are unbounded numbers; 64-bit wrap-around of the counters is not
  modelled.
- Worker.DatabaseWorker.Execute: the file write always completes, for the reason given above; Store itself has the
  failure.
- Worker.DatabaseWorker.ExecuteQueries: the queue is a finished list; arrival order is the subject of `Manager`.
- Linear.RunIsLinearizable: logs and fsyncs do not fail in the manager machine, and info and stats queries are not in
  its histories. A log there is its record list; `Crash` has the bytes.
- `DbManager` is a state machine over values, not a class: what matters about it is how its steps interleave.
- Creates that fail because a log cannot be opened, worker panics and cancelled tasks: the manager machine assumes
  they do not happen.
- Sending the response and letting go of the cloned sender is one step of the manager machine.
- Socket buffers: how many unread responses it takes until a peer holds a connection up is not modelled; in the
  manager machine a peer may stop taking bytes at any time.
- Drain.WaitEnds: that enabled steps are eventually taken is the scheduler's part; the queue bound must be at least 1,
  as `mpsc::channel` demands. The same holds for Calls.CallEnds, which gives no number for a drop: its wait is
  Drain.WaitEnds.
- Deeds.ListensMeansMoves: a response on the spot and a refusal wait for a peer that takes no bytes.
- The scan of the log directory at startup, except that it yields one worker per log and the default database.
- Wire.EncodeOfAccepted: names are bytes; the UTF-8 check after the character check cannot fail and is not modelled.
- Connection.HandleClient: the answers of the databases come from outside as a function of the request's position;
  `Server` joins connections and databases. A stats request is framed and answered, its floating-point payload is not
  modelled.
- Server.BytesAreExplained: a connection that sends an info request is served no further, because info is not in the
  manager machine.
- Corrupted length fields: CRC-32 promises nothing once record boundaries move, so only exactness and prefix stability
  apply there.
- The command-line client beyond its encoders, logging, formatting and the benchmark, which add only easy members.
