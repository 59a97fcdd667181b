# A verified model of the FileZilla engine's concurrent and stateful core

FileZilla is a file transfer client. This project models the parts of its engine where state, concurrency
and text formats meet, and proves properties of them in Dafny: over every run, every interleaving of threads
or every input.

What is modelled, file by file:

- **Operation locks** (`OpLockTable`, `OpLockRuns`, `OpLockManager`). Control sockets lock remote paths for a
  reason. The lock table is compacted while handles into it are alive. Waiting sockets are woken by events.
- **Asynchronous file access** (`BufferRing`, `WriterRing`, `FileWriter`, `MemoryWriter`, `ReaderRing`,
  `FileReader`). A client and a worker thread share a ring of eight buffers. The worker drops the mutex while
  it reads or writes. Every critical section and every unlocked access is one step.
- **Directory cache** (`CacheState`, `CacheInvariant`, `CacheKeeps`, `CacheRuns`, `DirectoryCache`) with the
  listings it holds (`ListingEntries`) and their lazily built search maps (`DirectoryListing`).
- **Remote recursive operation** (`RecursionSteps`, `RecursionOrder`, `RecursionRuns`, `RecursionEnds`,
  `RecursiveOperation`). Directories are visited for transfer, deletion or a change of mode; the server's
  replies drive it.
- **Line extraction for directory listings** (`LineSplit`, `ListingParser`) from chunks of any size.
- **Server paths** (`ServerPath`, `SafePath`, `SafePathText`, `PathText`, `PathChanger`) and **local paths**
  (`LocalPath`): two text formats with their parsers, ordering, canonical forms.
- **Counters shared between threads** (`TransferStatus`, `ActivityLogger`).
- **Upload planning** (`ChunkPlanner`).

Each component has two layers. The operations are pure functions on a value that holds the whole state, and the
properties are lemmas about them. A class, or methods with loops on arrays and cursors, carry out the
same operations in place as the program does; their contracts tie every new state to those functions.
History that the program does not keep (bytes accepted, listings stored, commands issued) is part of the value
so that properties can speak of it; no branch depends on it. `Optional` holds the type of optional values.

## Findings

Some promises do not hold for all inputs. The code is modelled as it is; each lemma states the exact condition.

- A memory writer whose last buffer does not fit the size limit reports success from `finalize`:
  `MemoryWriter.FinalizedResultComplete`. An overflow at any earlier call is reported:
  `MemoryWriter.OverflowSticks`.
- A lock that nothing on its own server blocks goes on waiting after its event if and only if a conflicting lock
  is granted on another server: `OpLockRuns.WaitsForOtherServer`, with a run where that happens in
  `OpLockRuns.StarvedByOtherServer`.
- A listing is refused by the cache, and its files are counted though they are not cached, if and only if it has no
  path and a listing without a path, of another server type, is cached for the server: `CacheRuns.RefusedExactly`,
  `CacheRuns.CountExactly`. No caller was seen to store a listing without a path
  (src/engine/ftp/list.cpp:192, 266, 314 and 335, src/engine/sftp/list.cpp:84, src/engine/storj/list.cpp:81).
- Taken alone, the listing class could answer a case-insensitive search with a renamed entry, if no exact search
  was made before: `DirectoryListing.RenameWithoutExactMap`. All callers search exactly first, and then every
  answer in every run is that of a scan: `DirectoryListing.LookupsMatchScan`.
- Printing and reparsing a path is the identity exactly on canonical paths: `PathText.PathRoundTrip`; for the
  safe format exactly if no part is empty, longer than 32767, or has anything but zeros behind a zero:
  `SafePathText.PrintedRoundTrip`.
- A part limit of an upload is met exactly if the parts at their largest cover it: `ChunkPlanner.FinishesExactly`.

## Model

| member | source | states |
|---|---|---|
| `OpLockTable.LockValid` | src/engine/oplock_manager.cpp:60-98 | locking yields a fresh handle; every other live handle still finds its lock, unchanged |
| `OpLockTable.LockExclusive` | src/engine/oplock_manager.cpp:72-98 | locking keeps mutual exclusion among granted locks of different sockets on one server |
| `OpLockTable.LockNoLostWakeup` | src/engine/oplock_manager.cpp:72-98 | a lock that is made to wait has a granted lock in its way, so no wake-up is owed |
| `OpLockTable.UnlockValid` | src/engine/oplock_manager.cpp:100-139 | releasing a handle, with whatever compaction it causes, leaves exactly the other handles live and their locks as they were |
| `OpLockTable.UnlockExclusive` | src/engine/oplock_manager.cpp:100-139 | releasing keeps mutual exclusion |
| `OpLockTable.UnlockNoLostWakeup` | src/engine/oplock_manager.cpp:100-151 | after a release and its wake-ups, every waiting lock is still blocked or its socket has an event to come |
| `OpLockTable.WakeupReachesAll` | src/engine/oplock_manager.cpp:141-151 | every socket with a waiting lock gets an event |
| `OpLockTable.ObtainValid` | src/engine/oplock_manager.cpp:153-193 | serving an event moves no lock and takes none back |
| `OpLockTable.ObtainExclusive` | src/engine/oplock_manager.cpp:153-193 | serving an event keeps mutual exclusion |
| `OpLockTable.ObtainNoLostWakeup` | src/engine/oplock_manager.cpp:153-193 | after an event is served, what still waits at that socket is blocked by a granted lock, and no other socket lost its event |
| `OpLockRuns.ServeGrantsExactly` | src/engine/oplock_manager.cpp:153-193 | for every run and every lock object waiting at a socket with an event, serving the event grants it if and only if no lock object elsewhere, on any server, holds a granted lock in its way |
| `OpLockRuns.WaitsForOtherServer` | src/engine/oplock_manager.cpp:171-193 | for every run, a waiting lock object that nothing on its own server blocks is not granted if and only if something on another server conflicts |
| `OpLockRuns.StarvedByOtherServer` | src/engine/oplock_manager.cpp:171-193 | a run after which a lock object is free on its own server and stays waiting when its event is served |
| `OpLockRuns.RunValid` | src/engine/oplock_manager.cpp:60-193 | in every run the table is valid and exclusive, handles of lock objects are live and distinct, and no wake-up is owed |
| `OpLockRuns.MutualExclusion` | src/engine/oplock_manager.cpp:60-193 | in no run do two sockets hold granted locks for one reason on one server where paths are equal or an inclusive lock is above the other |
| `OpLockRuns.WaitersAreBlockedOrNotified` | src/engine/oplock_manager.cpp:60-193 | in every run a waiting lock object has a granted lock of another object in its way, or its socket has an unserved event |
| `OpLockRuns.QuietMeansNoWaiter` | src/engine/controlsocket.cpp:655-660 | when all events are served and nothing is granted, nothing waits |
| `OpLockRuns.HandlesStayValid` | src/engine/oplock_manager.cpp:100-139 | through every step of every run, a lock object that the step does not touch keeps its handle, its lock, and its grant |
| `OpLockRuns.MoveTransfers` | src/engine/oplock_manager.cpp:23-49 | moving a lock object hands over exactly its lock |
| `OpLockRuns.AllReleasedEmptiesTable` | src/engine/oplock_manager.cpp:112-128 | in every run the table is empty if and only if no lock object is left |
| `OpLockManager.OpLockManager.GetOrCreate` | src/engine/oplock_manager.cpp:195-209 | the loop finds the socket's entry or appends one |
| `OpLockManager.OpLockManager.EntryBlocks` | src/engine/oplock_manager.cpp:77-89 | the inner loop decides whether the entry holds a granted lock in the way |
| `OpLockManager.OpLockManager.CheckNew` | src/engine/oplock_manager.cpp:72-93 | the outer loop decides whether a granted lock of another socket on the same server conflicts |
| `OpLockManager.OpLockManager.Lock` | src/engine/oplock_manager.cpp:60-98 | the lock waits exactly if a granted lock on the same server conflicts; the table stays valid |
| `OpLockManager.OpLockManager.Unlock` | src/engine/oplock_manager.cpp:100-139 | release and both compaction loops; events are sent exactly if the lock was not waiting |
| `OpLockManager.OpLockManager.Wakeup` | src/engine/oplock_manager.cpp:141-151 | one event for each entry with a waiting lock; every such entry has a socket |
| `OpLockManager.OpLockManager.CheckWaiting` | src/engine/oplock_manager.cpp:171-193 | decides whether any granted lock of another entry conflicts |
| `OpLockManager.OpLockManager.ObtainWaiting` | src/engine/oplock_manager.cpp:153-169 | grants exactly the unblocked waiting locks of the socket and says whether any was granted |
| `OpLockManager.OpLockManager.ObtainEntryInPlace` | src/engine/oplock_manager.cpp:158-166 | one entry's locks are updated while being scanned, as if all were checked against the table at the start |
| `OpLockManager.OpLockManager.WaitingHandle` | src/engine/oplock_manager.cpp:211-219 | says whether a live handle waits; one that does not conflicts with no lock granted to another entry on its server |
| `OpLockManager.OpLockManager.WaitingSocket` | src/engine/oplock_manager.cpp:221-235 | whether some live lock of the socket waits |
| `OpLockManager.OpLock.Destroy` | src/engine/oplock_manager.cpp:15-21 | the lock object's lock is released and it owns nothing afterwards |
| `OpLockManager.OpLock.Waiting` | src/engine/oplock_manager.cpp:51-58 | a lock object waits exactly if it owns a lock and that one waits |
| `OpLockManager.OpLock.MoveFrom` | src/engine/oplock_manager.cpp:35-49 | the own lock is released, the other's taken over and still held; a self-move changes nothing |
| `BufferRing.SlotIsModulo` | src/engine/writer.cpp:164 | the slot arithmetic without wrap-around is the modulo of the program |
| `BufferRing.QueuePush` | src/engine/writer.cpp:163-166 | storing behind the ready slots appends to the queue |
| `BufferRing.QueuePop` | src/engine/writer.cpp:391-392 | advancing the position removes the oldest buffer from the queue |
| `BufferRing.QueueConsume` | src/engine/writer.cpp:377-378 | consuming a part of the front buffer drops that part of the queued bytes |
| `BufferRing.QueueUntouched` | src/engine/writer.cpp:179-181 | writing into the slot behind the ready ones changes no queued byte |
| `WriterRing.NextKeeps` | src/engine/writer.cpp:156-401 | every step of client or worker keeps: the file, then what is queued, is what was accepted; nobody sleeps while only they could go on |
| `WriterRing.FinalizedFileIsComplete` | src/engine/writer.cpp:208-237 | for every interleaving, when finalize first succeeds the file holds exactly the accepted bytes, in order, once |
| `WriterRing.FileIsPrefix` | src/engine/writer.cpp:351-401 | for every interleaving and at all times, also after errors, the file holds a prefix of the accepted bytes |
| `WriterRing.ClientRegionNotQueued` | src/engine/writer.cpp:172-182 | the buffer the client fills is never one the worker has still to write |
| `WriterRing.WaitingClientHasRunningWorker` | src/engine/writer.cpp:354-366 | while the client waits, there is work and the worker can take a step; the exit for a waiting client with an empty queue is unreachable |
| `WriterRing.EventComesClosely` | src/engine/writer.cpp:368-399 | every worker step wakes the waiting client or comes closer to it by a rank; client steps never set it back |
| `FileWriter.FileWriter.constructor` | src/include/aio.h:69-79 | a fresh ring in a valid state |
| `FileWriter.FileWriter.Store` | src/engine/writer.cpp:163-170 | the array slot behind the ready ones takes the buffer; an idle worker is signalled |
| `FileWriter.FileWriter.GetWriteBuffer` | src/engine/writer.cpp:156-183 | takes over the last buffer, then hands out a slot or makes the client wait |
| `FileWriter.FileWriter.HandOut` | src/engine/writer.cpp:172-182 | waits exactly if all slots are queued, otherwise hands out an empty buffer on a free region |
| `FileWriter.FileWriter.Retire` | src/engine/writer.cpp:185-206 | takes over the last buffer without asking for another; an error if the client has data but was given no buffer |
| `FileWriter.FileWriter.Finalize` | src/engine/writer.cpp:208-237 | succeeds only with nothing queued and the sync done; waits while something is queued |
| `FileWriter.FileWriter.WorkerWakes` | src/engine/writer.cpp:353-366 | from the wait or the start into the loop |
| `FileWriter.FileWriter.LoopHead` | src/engine/writer.cpp:354-372 | quits, sleeps or starts to write the oldest buffer |
| `FileWriter.FileWriter.WorkerRelocks` | src/engine/writer.cpp:373-400 | after the unlocked write: quit, consume, or fail; a finished buffer is taken off and a waiting client notified |
| `FileWriter.FileWriter.FinishBuffer` | src/engine/writer.cpp:391-399 | the oldest buffer leaves the ring and a waiting client gets its event |
| `FileWriter.FileWriter.ConsumeBuffer` | src/engine/writer.cpp:377-378 | only the front buffer shrinks, by what was written |
| `MemoryWriter.FinalizedResultComplete` | src/engine/writer.cpp:208-237 | finalize without earlier error always succeeds; the result is complete if and only if the last buffer fits |
| `MemoryWriter.OverflowInFinalizeUnreported` | src/engine/writer.cpp:536-552 | two bytes with a limit of one, handed over with finalize: success, empty result |
| `MemoryWriter.OverflowSticks` | src/engine/writer.cpp:208-237 | for every run, finalize fails if and only if some step before it overflowed the limit |
| `MemoryWriter.RunKeeps` | src/engine/writer.cpp:492-552 | after every run the result is a prefix of what was handed over, all of it unless there was an error, and within the limit |
| `MemoryWriter.MemoryWriter.SignalCapacity` | src/engine/writer.cpp:536-552 | appends the stored buffer at once, or records an error and appends nothing |
| `MemoryWriter.MemoryWriter.GetWriteBuffer` | src/engine/writer.cpp:156-183 | the shared code over memory: never waits |
| `MemoryWriter.MemoryWriter.Retire` | src/engine/writer.cpp:185-206 | the shared code over memory |
| `MemoryWriter.MemoryWriter.Finalize` | src/engine/writer.cpp:208-237 | the shared code over memory: succeeds whenever no error was recorded before |
| `ReaderRing.NextKeeps` | src/engine/reader.cpp:154-376 | every step of client or worker keeps: delivered, then ready bytes, are the first part of what was asked for; an empty buffer only marks the end |
| `ReaderRing.TargetIsWanted` | src/engine/reader.cpp:288-315 | what is asked for is the file from the last offset, limited to the last size |
| `ReaderRing.DeliveredIsPrefix` | src/engine/reader.cpp:154-178 | for every interleaving the client was given a prefix of what it asked for |
| `ReaderRing.EndComesLast` | src/engine/reader.cpp:336-358 | for every interleaving the empty buffer is given out only after everything asked for |
| `ReaderRing.WaitingClientHasRunningWorker` | src/engine/reader.cpp:327-376 | while the client waits the worker can take a step, unless the client reads on after the end |
| `ReaderRing.EventComesClosely` | src/engine/reader.cpp:327-376 | every worker step wakes the waiting client or comes closer to it by a rank of at most three; reads of the client never set it back |
| `ReaderRing.HeldBufferStable` | src/engine/reader.cpp:336-347 | no worker step changes the bytes of the buffer the client holds |
| `ReaderRing.SeekStartsOver` | src/engine/reader.cpp:246-325 | a successful seek that changes something leaves nothing ready, held, delivered or announced, asks for exactly the window from the new offset, and has a worker at its start; one that changes nothing leaves all as it is |
| `FileReader.FileReader.Read` | src/engine/reader.cpp:154-178 | gives the last buffer back and takes the oldest ready one, or waits; the buffer's bytes come next in what was asked for |
| `FileReader.FileReader.GiveBack` | src/engine/reader.cpp:161-167 | frees the oldest slot and signals a worker that had none |
| `FileReader.FileReader.TakeNext` | src/engine/reader.cpp:168-177 | the client holds the oldest ready buffer, or is marked as waiting |
| `FileReader.FileReader.Seek` | src/engine/reader.cpp:246-325 | restarts only if something was read or offset or size differ; otherwise changes nothing; any failure is reported |
| `FileReader.FileReader.Restart` | src/engine/reader.cpp:281-324 | cleared ring and new window; an offset behind the end, or a failure to seek, to get the size or to start the worker leaves an error and no worker |
| `FileReader.FileReader.WorkerWakes` | src/engine/reader.cpp:329-334 | from the wait or the start into the loop |
| `FileReader.FileReader.LoopHead` | src/engine/reader.cpp:330-345 | quits, sleeps, starts to read into the slot behind the ready ones, or queues the end marker |
| `FileReader.FileReader.WorkerFetches` | src/engine/reader.cpp:346 | the unlocked read puts the next bytes of what was asked for into the slot's region; no other region and no queued byte changes |
| `FileReader.FileReader.WorkerRelocks` | src/engine/reader.cpp:347-375 | after the unlocked read: quit, or queue what was read, or fail |
| `FileReader.FileReader.AfterRead` | src/engine/reader.cpp:355-375 | queues the buffer or records the error, notifies, and leaves the loop at the end or on error |
| `CacheInvariant.FoundExactly` | src/engine/directorycache.cpp:75-97 | in a sorted set a path is found by its lower bound if and only if it is there |
| `CacheInvariant.ClashExactly` | src/engine/directorycache.cpp:50 | the set refuses an insertion if and only if the path is empty and an empty path of another type is there |
| `CacheInvariant.TouchExactly` | src/engine/directorycache.cpp:650-661 | marking as used keeps the list free of duplicates, adds at most the position, and puts it last |
| `CacheKeeps.LookupKeeps` | src/engine/directorycache.cpp:75-97 | a lookup only reorders the recently-used list, puts what it finds last, and finds only what is cached |
| `CacheKeeps.LookupFaithful` | src/engine/directorycache.cpp:87-92 | what a lookup returns has that path; refused if unsure and that is not allowed |
| `CacheKeeps.EditKeeps` | src/engine/directorycache.cpp:318-448 | updating, removing or invalidating a file keeps bijection, count, order and faithfulness |
| `CacheKeeps.EditedUnsure` | src/engine/directorycache.cpp:281-298 | every edit of a listing marks the listing as unsure and keeps its path |
| `CacheKeeps.MarkNamedExactly` | src/engine/directorycache.cpp:339-347 | which entries are marked, position by position: those of that name in the comparison asked for, none behind the first exact one when stopping there |
| `CacheKeeps.EditDirsExactly` | src/engine/directorycache.cpp:329-335 | a pass edits exactly the directories it concerns |
| `CacheKeeps.InvalidateFileKeeps` | src/engine/directorycache.cpp:254-316 | invalidating a file, and what lies below it if it is a directory, keeps the invariant |
| `CacheKeeps.EvictKeeps` | src/engine/directorycache.cpp:669-680 | evicting the least recently used directory removes that one only, with its files from the count and an emptied server |
| `CacheKeeps.PruneDropsOldest` | src/engine/directorycache.cpp:663-682 | pruning drops only the oldest, and never the hundred most recently used |
| `CacheKeeps.PruneKeeps` | src/engine/directorycache.cpp:663-682 | pruning ends within all three limits and keeps the invariant |
| `CacheKeeps.InsertKeeps` | src/engine/directorycache.cpp:50-52 | a new directory is inserted in order, put last in the list, and counted |
| `CacheKeeps.OverwriteKeeps` | src/engine/directorycache.cpp:40-48 | a new listing for a cached directory replaces the old one in place and in the count |
| `CacheKeeps.RefuseKeeps` | src/engine/directorycache.cpp:36-52 | a refused listing leaves all but the count consistent |
| `CacheKeeps.RemoveDirKeeps` | src/engine/directorycache.cpp:493-528 | dropping a directory and everything below it keeps the invariant |
| `CacheKeeps.DropBelowExactly` | src/engine/directorycache.cpp:505-525 | exactly the directories at or below the one that is gone are no longer cached |
| `CacheKeeps.InvalidateServerExactly` | src/engine/directorycache.cpp:450-472 | exactly the directories of that server are no longer cached |
| `CacheKeeps.InvalidateServerKeeps` | src/engine/directorycache.cpp:450-472 | dropping a server removes exactly its directories from list and count |
| `CacheKeeps.RenameKeeps` | src/engine/directorycache.cpp:530-590 | renaming within or across directories, known or not, keeps the invariant |
| `CacheKeeps.UpdateOwnerGroupKeeps` | src/engine/directorycache.cpp:592-623 | changing an owner keeps the invariant; the entries are the same but for owners |
| `CacheRuns.StoreKeeps` | src/engine/directorycache.cpp:29-55 | after a store the listing is found and used last unless it was refused; a new directory establishes all limits; only a refused listing is lost |
| `CacheRuns.RunKeeps` | src/engine/directorycache.cpp:29-682 | after any run list and directories are in bijection, at most 50000, and the count is their files plus those of refused listings |
| `CacheRuns.CertainListingIsLastStored` | src/engine/directorycache.cpp:57-97 | over any run, a listing returned as certain has the entries and the age of the one last stored for that server and path, but for owners |
| `CacheRuns.RunRecords` | src/engine/directorycache.cpp:29-55 | the recorded listing of every directory is the one of the last store in the run |
| `CacheRuns.CountExactly` | src/engine/directorycache.cpp:14-26 | the count is exact, as the destructor asserts, if and only if no refused listing had files; so always if no listing lacks a path |
| `CacheRuns.RefusedExactly` | src/engine/directorycache.cpp:40-50 | a listing is refused if and only if it has no path and one of another type without a path is cached for the server |
| `CacheRuns.SecondEmptyPathIsLost` | src/engine/directorycache.cpp:36-50 | of two listings without a path, of different types, the second is lost |
| `CacheRuns.PruneHolds` | src/engine/directorycache.cpp:663-682 | pruning keeps the directory that was used last |
| `DirectoryCache.MarkUntil` | src/engine/directorycache.cpp:337-347 | marks the entries of that name in any case up to the first exact one, and finds that one |
| `DirectoryCache.MarkEntries` | src/engine/directorycache.cpp:283-297 | marks exactly the entries of that name |
| `DirectoryCache.UpdateDir` | src/engine/directorycache.cpp:337-391 | the branches for a changed, a new and an unknown file |
| `DirectoryCache.EditDir` | src/engine/directorycache.cpp:417-443 | the branches for a file that is there and one that is not |
| `DirectoryCache.EditAll` | src/engine/directorycache.cpp:329-395 | one pass over all matching directories: contents, order of use and count together; says whether any matched |
| `DirectoryCache.FindServerIndex` | src/engine/directorycache.cpp:638-648 | the first server with that content, or none |
| `DirectoryCache.DropDirs` | src/engine/directorycache.cpp:510-525 | erases exactly the directories at or below the one that is gone, from list and count |
| `DirectoryCache.ForgetAll` | src/engine/directorycache.cpp:459-467 | takes all directories of a server out of list and count |
| `DirectoryCache.DistrustAll` | src/engine/directorycache.cpp:305-311 | flags exactly the listings at or below the path |
| `DirectoryCache.FindNamedDir` | src/engine/directorycache.cpp:283-294 | whether a matching directory has a subdirectory of that name |
| `DirectoryCache.DirectoryCache.constructor` | src/engine/directorycache.cpp:6-8 | an empty cache |
| `DirectoryCache.DirectoryCache.CreateServerEntry` | src/engine/directorycache.cpp:626-636 | the server's entry, appended if missing |
| `DirectoryCache.DirectoryCache.StoreListing` | src/engine/directorycache.cpp:29-55 | overwrite, insert and prune, or refuse, as the value-level store |
| `DirectoryCache.DirectoryCache.StoreInto` | src/engine/directorycache.cpp:36-54 | the same for a known server entry |
| `DirectoryCache.DirectoryCache.LookupListing` | src/engine/directorycache.cpp:57-97 | the directory at the path; marked as used even if refused for being unsure; outdated exactly if found and older than the time to live |
| `DirectoryCache.DirectoryCache.EvictFirst` | src/engine/directorycache.cpp:669-680 | the least recently used directory is dropped |
| `DirectoryCache.DirectoryCache.PruneAll` | src/engine/directorycache.cpp:663-682 | evicts until all limits hold |
| `DirectoryCache.DirectoryCache.UpdateFile` | src/engine/directorycache.cpp:318-398 | all directories matching in any case are updated; says whether there was one |
| `DirectoryCache.DirectoryCache.RemoveFile` | src/engine/directorycache.cpp:400-448 | all directories matching in any case lose the file or become invalid |
| `DirectoryCache.DirectoryCache.InvalidateFile` | src/engine/directorycache.cpp:254-316 | matching directories, and those below if the file is a directory, become unsure |
| `DirectoryCache.DirectoryCache.RemoveDir` | src/engine/directorycache.cpp:493-528 | the directory, what is below it, and its entry in the parent go |
| `DirectoryCache.DirectoryCache.InvalidateServer` | src/engine/directorycache.cpp:450-472 | everything about the server goes |
| `DirectoryCache.DirectoryCache.Rename` | src/engine/directorycache.cpp:530-590 | a rename in an unknown directory invalidates the server |
| `DirectoryCache.DirectoryCache.RenameSameDir` | src/engine/directorycache.cpp:544-566 | the target name goes first; a directory is dropped and added again, a file renamed in place |
| `DirectoryCache.DirectoryCache.RenameOtherDir` | src/engine/directorycache.cpp:567-585 | removed here, added there |
| `DirectoryCache.DirectoryCache.UpdateOwnerGroup` | src/engine/directorycache.cpp:592-623 | only the owner of a file changes; unknown files invalidate the server |
| `DirectoryListing.FindFile` | src/engine/directorylisting.cpp:123-199 | the loop that extends the map answers only as the map allows |
| `DirectoryListing.LookupsMatchScan` | src/engine/directorylisting.cpp:70-214 | over any run of assignments, additions, removals, copies, renames and lookups, exact and case-insensitive searches can only answer as a scan of the entries would |
| `DirectoryListing.StepKeeps` | src/engine/directorylisting.cpp:201-209 | every such operation keeps both maps in agreement with the entries, and the case-insensitive one only beside an exact one |
| `DirectoryListing.LookupIsScan` | src/engine/directorylisting.cpp:123-199 | with a map that agrees with the first entries, a search answers with an entry of that name if and only if there is one, and extends the map correctly |
| `DirectoryListing.RenameWithoutExactMap` | src/engine/directorylisting.cpp:201-209 | without an exact map, all case-insensitive searches after a rename are right if and only if there was no map, it had not reached the entry, or the folded name is the same |
| `DirectoryListing.OldNameAnswered` | src/engine/directorylisting.cpp:201-209 | otherwise the old name is answered with the renamed entry |
| `DirectoryListing.Listing.Copy` | src/include/directorylisting.h:79-83 | a copy has entries, flags and maps of the original |
| `DirectoryListing.Listing.Assign` | src/engine/directorylisting.cpp:70-91 | new entries, no maps, and three flags that hold if and only if some entry is a directory, has permissions, has an owner |
| `DirectoryListing.Listing.Append` | src/engine/directorylisting.cpp:211-214 | the maps go on agreeing with the longer list |
| `DirectoryListing.Listing.RemoveEntry` | src/engine/directorylisting.cpp:93-113 | the entry is gone, the maps are dropped, a flag says what kind it was; an index out of range changes nothing |
| `DirectoryListing.Listing.FindFileCmpCase` | src/engine/directorylisting.cpp:123-159 | always agrees with a scan of the entries |
| `DirectoryListing.Listing.FindFileCmpNoCase` | src/engine/directorylisting.cpp:161-199 | agrees with a scan of the entries that ignores case |
| `DirectoryListing.Listing.LookupFile` | src/engine/directorycache.cpp:144-158 | an entry of exactly that name if there is one, otherwise, if asked for, one that differs in case only, otherwise none |
| `DirectoryListing.Listing.RenameEntry` | src/engine/directorycache.cpp:559-562 | a renamed entry is marked and all searches are right afterwards |
| `RecursionRuns.RemovalComesLast` | src/commonui/remote_recursive_operation.cpp:78-277 | in every run, once a directory's removal is issued nothing below it is issued or queued any more |
| `RecursionRuns.EveryDirectoryRemovedOnce` | src/commonui/remote_recursive_operation.cpp:84-97 | when a deletion finishes, every visit that must end with a removal has ended with exactly one, of its own directory |
| `RecursionRuns.BegunAreDeletions` | src/commonui/remote_recursive_operation.cpp:246-252 | those are exactly the visits of named directories in a deletion |
| `RecursionRuns.StaysInside` | src/commonui/remote_recursive_operation.cpp:108-136 | every processed listing lies inside its caller's root, or at or below the target of a link that the caller queued |
| `RecursionRuns.ProcessedOnce` | src/commonui/remote_recursive_operation.cpp:259-263 | no path is processed twice for one root |
| `RecursionRuns.NoEntrySkipped` | src/commonui/remote_recursive_operation.cpp:138-213 | every entry that passes the filters is queued, handled, deleted or changed, as the mode asks |
| `RecursionRuns.NoOtherEntry` | src/commonui/remote_recursive_operation.cpp:147-164 | whatever is queued, issued or deleted stems from an entry that passes the filters |
| `RecursionRuns.StepKeeps` | src/commonui/remote_recursive_operation.cpp:215-369 | every reply keeps the invariant behind these properties |
| `RecursionRuns.NextKeeps` | src/commonui/remote_recursive_operation.cpp:78-106 | choosing the next operation keeps it and stops at a directory to visit |
| `RecursionRuns.ListedMid` | src/commonui/remote_recursive_operation.cpp:232-276 | handling a listing keeps it, inside the root, outside, or at a link's target |
| `RecursionRuns.FailedMid` | src/commonui/remote_recursive_operation.cpp:311-327 | a second try or a removal keeps it |
| `RecursionRuns.LinkMid` | src/commonui/remote_recursive_operation.cpp:344-366 | a link that is no directory keeps it |
| `RecursionOrder.ChildrenVisit` | src/commonui/remote_recursive_operation.cpp:160-176 | what a listing queues is to be visited, confined like its parent, and no caller's link |
| `RecursionEnds.StepCloser` | src/commonui/remote_recursive_operation.cpp:215-369 | every reply leaves fewer roots, fewer unvisited directories, or less queued; without a cancellation the operation stops only by finishing |
| `RecursionEnds.NextNoFarther` | src/commonui/remote_recursive_operation.cpp:78-106 | choosing the next operation never adds work |
| `RecursionEnds.OperationEnds` | src/commonui/remote_recursive_operation.cpp:78-369 | for every infinite stream of replies that name finitely many directories the operation ends, and finishes unless cancelled |
| `RecursiveOperation.ProcessEntry` | src/commonui/remote_recursive_operation.cpp:147-207 | one entry: filtered, queued, handled, deleted or changed |
| `RecursiveOperation.ProcessEntries` | src/commonui/remote_recursive_operation.cpp:138-213 | the backward loop queues subdirectories in the listing's order in front of the rest, and issues the entries' commands last first |
| `RecursiveOperation.RemoteRecursiveOperation.AddRecursionRoot` | src/commonui/remote_recursive_operation.cpp:44-49 | an empty root is not added |
| `RecursiveOperation.RemoteRecursiveOperation.StartRecursiveOperation` | src/commonui/remote_recursive_operation.cpp:51-76 | starts only when idle, with a root, and for a change of mode only with the data for it |
| `RecursiveOperation.RemoteRecursiveOperation.StopRecursiveOperation` | src/commonui/remote_recursive_operation.cpp:284-291 | idle, with no roots |
| `RecursiveOperation.RemoteRecursiveOperation.NextOperation` | src/commonui/remote_recursive_operation.cpp:78-106 | the nested loops issue due removals, drop finished roots, then list one directory or finish |
| `RecursiveOperation.RemoteRecursiveOperation.DrainFront` | src/commonui/remote_recursive_operation.cpp:86-97 | the inner loop over one root |
| `RecursiveOperation.RemoteRecursiveOperation.BeginVisit` | src/commonui/remote_recursive_operation.cpp:246-252 | in a deletion a named directory comes back in front of the queue, to be removed |
| `RecursiveOperation.RemoteRecursiveOperation.EnterDirectory` | src/commonui/remote_recursive_operation.cpp:259-273 | the path counts as visited, the contents go in front, the commands are issued |
| `RecursiveOperation.RemoteRecursiveOperation.HandleListing` | src/commonui/remote_recursive_operation.cpp:238-274 | outside: nothing; a link met on the way or a visited path: no contents; otherwise entered |
| `RecursiveOperation.RemoteRecursiveOperation.ProcessDirectoryListing` | src/commonui/remote_recursive_operation.cpp:215-277 | one successful reply as a step of the run |
| `RecursiveOperation.RemoteRecursiveOperation.HandleListingFailed` | src/commonui/remote_recursive_operation.cpp:293-330 | one failed or cancelled reply as a step of the run |
| `RecursiveOperation.RemoteRecursiveOperation.HandleLinkIsNotDir` | src/commonui/remote_recursive_operation.cpp:332-369 | one reply that a link is no directory as a step of the run |
| `LineSplit.SplitIndependentOfChunks` | src/engine/directorylistingparser.cpp:693-757 | however the input is cut into chunks, feeding them and parsing the rest gives the lines of one pure split, and fails exactly when it does |
| `LineSplit.FailureIndependentOfChunks` | src/engine/directorylistingparser.cpp:2092-2104 | two ways of cutting the same input give the same lines and fail together or not at all |
| `LineSplit.SplitLinesClean` | src/engine/directorylistingparser.cpp:2121-2253 | lines are not empty, have no break inside and no blank in front, and are at most 10000 long |
| `LineSplit.TakeLinesIsCertain` | src/engine/directorylistingparser.cpp:2151-2169 | a line taken before the data has ended stays the same whatever follows |
| `LineSplit.ShownAppend` | src/engine/directorylistingparser.cpp:2243-2250 | what is shown of lines taken one after the other is what is shown of all of them |
| `ListingParser.SkipBlanks` | src/engine/directorylistingparser.cpp:2126-2144 | the loop over chunks drops exactly the leading blanks and breaks |
| `ListingParser.FindBreak` | src/engine/directorylistingparser.cpp:2146-2182 | finds the end of the line across chunks; at the end of the data the offset into the last chunk stays |
| `ListingParser.CopyChunks` | src/engine/directorylistingparser.cpp:2189-2203 | whole chunks of the line are copied, and none past its end |
| `ListingParser.CopyLine` | src/engine/directorylistingparser.cpp:2184-2224 | the copy out of several chunks is the line |
| `ListingParser.ListingParser.GetRawLine` | src/engine/directorylistingparser.cpp:2124-2224 | takes what the pure split takes off the joined chunks |
| `ListingParser.ListingParser.GetLine` | src/engine/directorylistingparser.cpp:2121-2253 | takes lines up to the first that is not empty once decoded and without its byte order mark |
| `ListingParser.ListingParser.ParseData` | src/engine/directorylistingparser.cpp:693-729 | takes all lines there are, and hands on what is to be shown of them |
| `ListingParser.ListingParser.AddData` | src/engine/directorylistingparser.cpp:2092-2104 | a chunk is added; parsing starts with the 512th byte |
| `ListingParser.ListingParser.Parse` | src/engine/directorylistingparser.cpp:731-757 | the rest is parsed as if the data had ended |
| `ListingParser.ListingParser.Reset` | src/engine/directorylistingparser.cpp:2947-2962 | nothing is left of the session |
| `SafePath.SafePathRoundTrip` | src/engine/serverpath.cpp:347-443 | reading back the safe text of a path gives it again if and only if prefix and segments are neither empty nor longer than 32767 |
| `SafePathText.PrintedRoundTrip` | src/engine/serverpath.cpp:292-443 | reading back what was printed gives the path again if and only if, besides, no part has anything but zeros behind a zero |
| `SafePathText.CopyString` | src/engine/serverpath.cpp:320-329 | copies up to the first zero and leaves zeros up to the string's size |
| `SafePath.SafeTextInjective` | src/engine/serverpath.cpp:292-335 | different safe paths have different texts |
| `SafePath.ReadDataSafe` | src/engine/serverpath.cpp:347-443 | whatever is read has that shape |
| `SafePath.SizesHaveTwentyDigits` | src/engine/serverpath.cpp:273-288 | every 64-bit number fits the scratch buffer of twenty digits |
| `SafePathText.FillScratch` | src/engine/serverpath.cpp:273-281 | the digits, last first, within the scratch buffer |
| `SafePathText.SprintNumber` | src/engine/serverpath.cpp:273-288 | the number is appended in decimal |
| `SafePathText.TextLength` | src/engine/serverpath.cpp:300-307 | the precomputed length |
| `SafePathText.PutSegments` | src/engine/serverpath.cpp:324-330 | the loop appends all segments and stays within that length |
| `SafePathText.PutHead` | src/engine/serverpath.cpp:309-322 | type and prefix, leaving room for the segments |
| `SafePathText.GetSafePath` | src/engine/serverpath.cpp:292-335 | the safe text of the path with each part cut at its first zero and filled up with zeros; no write passes the precomputed length |
| `SafePathText.ReadNumberAt` | src/engine/serverpath.cpp:379-391 | digits up to a space, with the bound checked on the way |
| `SafePathText.ReadSegmentsAt` | src/engine/serverpath.cpp:413-440 | the cursor loop reads the segments or fails as the pure reader |
| `SafePathText.DoSetSafePath` | src/engine/serverpath.cpp:347-443 | the cursor parser reads what the pure one reads, with the same failures |
| `PathText.PathRoundTrip` | src/engine/serverpath.cpp:80-203 | for Unix-like, DOS and VMS types, printing and setting again gives the path back if and only if it is canonical |
| `PathText.ChangePathCanonical` | src/engine/serverpath.cpp:547-842 | a changed or newly set path is canonical: no empty, dot or dot-dot segment, none with a separator |
| `PathText.ChangeComposes` | src/engine/serverpath.cpp:547-842 | changing to a and then to a relative b is changing to a/b |
| `PathText.SegmentizeComposes` | src/engine/serverpath.cpp:1126-1162 | the segments of a/b are those of b put behind those of a |
| `PathText.SeparatorsAgree` | src/engine/serverpath.cpp:19-31 | the separators are those of the traits table |
| `PathChanger.FindSeparator` | src/engine/serverpath.cpp:1126-1140 | the next separator |
| `PathChanger.AddSegment` | src/engine/serverpath.cpp:1094-1124 | dots are resolved and VMS escapes join pieces |
| `PathChanger.SegmentizeText` | src/engine/serverpath.cpp:1126-1162 | the loop yields the segments of the pure split, and fails on a trailing escape |
| `PathChanger.DoChangePath` | src/engine/serverpath.cpp:547-842 | the branches for Unix-like, DOS and VMS types |
| `ServerPath.CheckSubdirOf` | src/engine/serverpath.cpp:461-524 | the loop decides: same type and prefix, and the parent's segments come first |
| `ServerPath.SubdirStrictOrder` | src/engine/serverpath.cpp:461-524 | being a subdirectory is irreflexive, asymmetric and transitive |
| `ServerPath.ComparePaths` | src/engine/serverpath.cpp:864-908 | the loop decides the lexicographic order on prefix, type and segments |
| `ServerPath.PathOrder` | src/engine/serverpath.cpp:864-908 | that is a strict order; paths that neither precedes are equal, except that all empty paths are equivalent |
| `LocalPath.SetPath` | src/engine/local_path.cpp:24-221 | the in-place writer yields split, resolved dots and join of the text up to its first zero, or rejects; its position stays in the buffer |
| `LocalPath.CanonicalForm` | src/engine/local_path.cpp:24-221 | the result starts and ends with a separator, has only clean segments, and is a fixed point |
| `LocalPath.EndPart` | src/engine/local_path.cpp:153-179 | a part that ends is kept, dropped, or drops the one before, on text and stack alike |
| `LocalPath.Scan` | src/engine/local_path.cpp:133-197 | after each character the buffer holds the resolved segments and the current part |
| `TransferStatus.BytesConserved` | src/engine/engineprivate.cpp:871-943 | for every interleaving, offset plus pending bytes are the start offset plus all bytes reported since |
| `TransferStatus.NextGetReportsChange` | src/engine/engineprivate.cpp:924-943 | with bytes pending and no update in flight the next reading says changed and shows all bytes |
| `TransferStatus.NextBytesNotify` | src/engine/engineprivate.cpp:898-922 | after a reading that said unchanged, the next bytes raise a notification that shows them |
| `TransferStatus.ReadingShowsAll` | src/engine/engineprivate.cpp:924-943 | whatever other threads do during a reading, it shows exactly the bytes reported until it drained the counter; the later ones stay pending |
| `TransferStatus.AnnouncementLasts` | src/engine/engineprivate.cpp:905-916 | once announced, bytes stay announced through any steps until a reading ends or the status is cleared, and that reading says changed |
| `TransferStatus.ClearedStaysQuiet` | src/engine/engineprivate.cpp:860-866 | after a clear nothing is announced, and no update goes past its check, until the status is set up again, however many bytes are reported |
| `TransferStatus.RunKeeps` | src/engine/engineprivate.cpp:860-943 | pending bytes are announced or someone is about to announce them, in every reachable state |
| `TransferStatus.TransferStatusManager.SetUp` | src/engine/engineprivate.cpp:871-881 | a negative start offset counts as zero |
| `TransferStatus.TransferStatusManager.FetchAdd` | src/engine/engineprivate.cpp:903-904 | the atomic addition; whoever finds the counter empty goes on |
| `TransferStatus.TransferStatusManager.UpdateTakesLock` | src/engine/engineprivate.cpp:905-914 | a notification exactly if there is a status and nothing is announced; the status then shows all bytes |
| `TransferStatus.TransferStatusManager.GetReleases` | src/engine/engineprivate.cpp:933-940 | changed exactly if announced |
| `ActivityLogger.AmountsConserved` | src/engine/activity_logger.cpp:3-26 | for every interleaving each recorded byte was extracted once or is still there |
| `ActivityLogger.WaitingReaderIsWoken` | src/engine/activity_logger.cpp:3-26 | for every interleaving a waiting reader with amounts to read has a recorder in flight that wakes it |
| `ActivityLogger.WokenOncePerWait` | src/engine/activity_logger.cpp:3-26 | for every interleaving the reader was woken once for each time it began to wait, but for the wait that lasts |
| `ActivityLogger.ReadingReturnsTaken` | src/engine/activity_logger.cpp:16-26 | a reading returns exactly what it took out, whatever other threads do between and after its two exchanges |
| `ActivityLogger.RunKeeps` | src/engine/activity_logger.cpp:3-26 | the invariant behind these, in every reachable state |
| `ActivityLogger.Counters.FetchAdd` | src/engine/activity_logger.cpp:5 | the atomic addition; whoever finds the counter empty goes on |
| `ActivityLogger.Counters.Finish` | src/engine/activity_logger.cpp:21-25 | the reader waits exactly if both amounts were zero |
| `ChunkPlanner.CalculateNextChunkSize` | src/engine/controlsocket.cpp:1170-1213 | progress within what remains and the largest part; a multiple unless it is the rest or the largest part |
| `ChunkPlanner.FinishesExactly` | src/engine/controlsocket.cpp:1185-1194 | for all timings, the upload is complete after the allowed parts if and only if those at their largest cover it |
| `ChunkPlanner.StillEnough` | src/engine/controlsocket.cpp:1185-1211 | one part later, one part less is enough, whatever was measured |
| `ChunkPlanner.PartsAddUp` | src/engine/controlsocket.cpp:1196-1213 | the parts and what remains add up and no part is negative |
| `ChunkPlanner.PartsAreMultiples` | src/engine/controlsocket.cpp:1196-1213 | for all timings, all parts but a last one are multiples if the largest part is |
| `ChunkPlanner.AimsAtThirtySeconds` | src/engine/controlsocket.cpp:1176-1183 | without limits, a part is what the last one's speed transfers in thirty seconds |
| `ChunkPlanner.RoundUpIsMultiple` | src/engine/controlsocket.cpp:1196-1202 | rounding up yields a multiple and never less |

## Left out

- The user interface, settings, site management, certificates, updates and the protocols themselves: mostly foreign calls.
- libfilezilla is not part of this model. A condition variable remembers one signal; a buffer counts as present if it is not empty; an absent prefix sorts before any other.
- Integers are unbounded: 64-bit wrap-around of offsets, counts and sizes is not modelled, except that the safe path printer's numbers are below 2^64.
- Case folding is that of ASCII letters; the program folds with the locale.
- The clock is a parameter where listings expire; modification times, and setting the time to live, are left out.
- Writer: preallocation, opening and closing files, changing the handler, and the cleanup of partial files; that the client submits only the buffer it was last given is part of the steps.
- Reader: stopping the worker in `seek` and waiting for it is one step; the loop head is a step of its own, which only adds interleavings.
- DirectoryCache: `LookupFile` is modelled on a listing that was found, `DoesExist` and `GetChangeTime` add nothing to it; the set, the iterators into it and the linked list are sequences and positions; the mutex makes every call one step.
- `DirectoryCache.DirectoryCache.InvalidateFile`: whether the path can be changed to the file is a parameter, since that question involves server types not modelled.
- `CheckInclusion` of two listings: it compares nothing in the code as it is.
- `RecursiveOperation.ProcessEntry`: name filters and permission rules are verdicts attached to the entries, because they are code of the user interface.
- Recursive operation: local directories and progress counters are left out, and listings marked as failed are ignored before they reach the model. Visited paths are compared by equality, which differs from the program's set only for empty paths.
- `ListingParser.ListingParser.GetLine`: the conversion of characters is a function the parser is made with; how it is chosen, and the conversion of incoming data, are left out. So are the parsers of single lines.
- `ListingParser.ListingParser.AddData`: chunks are not empty, and adding data after the end was parsed needs a reset first, because the offset into the dropped data is still there.
- Paths: the text syntax of MVS, HP NonStop, VxWorks and Cygwin, guessing the type of a text, file names at the end of a text, and Windows local paths.
- Activity logger: setting the notifier; runs start from either state it can leave.
- Transfer status: progress flags, start times and the contents of notifications other than the offset.
