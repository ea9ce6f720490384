# Verified model of asanypath

asanypath gives one path interface to object stores, SFTP servers and local files. This project models the parts of
it in which something can go wrong between steps, and proves what they keep:

- the transfer engine: multipart uploads that share one budget, the S3 call on top of it, parallel range reads, and
  who counts as an active transfer;
- resumable downloads, and moves by copy and delete;
- the byte-bounded LRU cache, and reading through it;
- recursive delete over paged listings, its batches and their replies, and one-level listings;
- the civil calendar in closed form;
- the task machines: the CLI's queue, the micro-batcher, and the concurrent SFTP removal.

## How it is modelled

Concurrent code is a state machine: a datatype for the state, `CanAct` and `Apply` (or `CanStep` and `Step`) for what
one coroutine does between two waits, and lemmas about every list of enabled steps, that is, every interleaving. Beside it
a class has the same state in fields; each of its methods changes them as the code does, keeps the invariant, and is
proved to do exactly that step. Sequential code is methods with loops. Its requests are answered by functions given as
parameters, so that a contract speaks about every way the network can behave.

Hypotheses, each visible as a `requires`, as a guard of a contract, or as an outcome that a step cannot have:

- equal identity and size of a remote object mean equal bytes (`ResumableDownload.Faithful`); without it two versions can be
  stitched together (`AnonymousObjectsStitch`);
- an object does not change inside one call; a range read that succeeds inside the object returns at least one byte
  (`ResumableDownload.NoEmptyRead`) and bytes of the object;
- checksums and digests that are reported equal mean equal bytes (`Moves.Honest`); Azure's empty MD5 breaks this
  (`EmptyChecksumsLoseData`);
- different path strings of a tree that is walked name different objects (`Moves.NoAliases`); without it a move can delete the
  only copy (`MoveOntoAliasLosesData`);
- a continuation token means the keys after the last one looked at, every page looks at some key, and nobody else writes
  to the store meanwhile;
- SQLite runs each cache operation as one transaction; semaphores, locks, queues, futures and tasks do what asyncio
  documents.

Where the code and its documentation part ways the model follows the code. The cache says that a stampede of identical
reads triggers a single fetch; that holds as long as no fetch goes to waste, and `StampedeFetchesOnce` bounds the fetches
otherwise. The batcher says that calls are grouped by operation and arguments; the code also tells apart the order in which
the arguments were given. An S3 upload that fails aborts what it created, but an id whose creation reply is lost, or a
second cancellation during recovery, leaves it behind (`LeaksExactly`). A download is meant to appear at its destination
at once, but one whose probe failed writes there in place (`Session`, `TornDownload`). A parallel upload divides by the number
of active files, which is zero for a task that outlived the scope that counted it (`DividesByZeroExactly`). A path that is
another string for the same object passes for a destination of its own (`MoveKeepsExactly`), and an object whose name is also
a prefix is left out of a recursive move (`HiddenStays`).

## Model

| member | source | states |
|---|---|---|
| TransferBudget.WorkerCount | src/asanypath/_transfer.py:131-139 | an upload gets at least one worker, at most `per_file_cap`, and never more than it has parts; it divides by zero exactly if it is parallel and no file is active |
| TransferBudget.WorkerCountIsShare | src/asanypath/_transfer.py:131-139 | a parallel call starts the most workers, at least one, that the cap, its parts and its share of the floor among the active files allow |
| TransferBudget.PartsAreEnough | src/asanypath/_transfer.py:135 | the parts that are counted are just enough for the size, and one for an empty source |
| UploadPool.WorkKeepsUpload | src/asanypath/_transfer.py:144-158 | every step of every worker, failures and cancellations included, keeps: the lock has the one reader, no part number is used twice, parts in flight and stored parts carry what was numbered, none is forgotten, and the chunks in order are what was read |
| UploadPool.WorkKeepsTiled | src/asanypath/_transfer.py:149-156 | with full reads chunk n is bytes [(n-1)*part, min(n*part, size)) of the source, after every step |
| UploadPool.CollectResults | src/asanypath/_transfer.py:168 | the results come back by increasing part number, each exactly once |
| UploadPool.NormalReturn | src/asanypath/_transfer.py:160-168 | a call that returns normally used the numbers 1..k without a gap, returns their replies in that order, and stored parts that concatenate to the source |
| UploadPool.NormalReturnTiled | src/asanypath/_transfer.py:140-168 | with full reads part n is exactly its slice of the source, every part but the last is full and the last is not empty |
| TransferBudget.ActKeepsInv | src/asanypath/_transfer.py:130-160 | any step of any upload or range read keeps slots conserved: free, held by reads and held by workers always add up to the ceiling |
| TransferBudget.Bounds | src/asanypath/_transfer.py:44-61 | slots in use never exceed the ceiling, one upload never exceeds the per-file cap, and bytes buffered by all uploads are at most ceiling times the largest part |
| TransferBudget.NoDeadlock | src/asanypath/_transfer.py:144-162 | in every good state with work left some step is possible that neither fails nor cancels anything, for any number of uploads on one budget |
| TransferBudget.ActDecreases | src/asanypath/_transfer.py:144-162 | every step lowers a measure of unread bytes, worker phases and work not begun |
| TransferBudget.RunsEnd | src/asanypath/_transfer.py:144-167 | no run is longer than the measure of its first state |
| TransferBudget.EveryScheduleUploads | src/asanypath/_transfer.py:140-168 | for every schedule of any uploads from the start: one that returns normally stored its whole source under 1..k and returns the replies in that order |
| TransferBudget.EveryScheduleTiles | src/asanypath/_transfer.py:140-168 | for every schedule with full reads, part n of that upload is bytes [(n-1)*part, min(n*part, size)), and k parts are just enough |
| TransferBudget.NormalExactly | src/asanypath/_transfer.py:160-168 | when all is done, a call has returned normally exactly if it began with workers, was not cancelled, and none of its own reads and parts failed, whatever happened to the others |
| TransferBudget.MaximalRunsFinish | src/asanypath/_transfer.py:142-167 | a run that cannot go on has finished every upload and read and given every slot back, after a bounded number of steps |
| TransferEngine.Engine.BeginUpload | src/asanypath/_transfer.py:130-142 | beginning an upload, or raising before any worker starts where the count of active files is zero, does that step of the machine and keeps its invariant |
| TransferEngine.Engine.TakeBudgetSlot | src/asanypath/_transfer.py:148-150 | taking a slot does that step and keeps the invariant |
| TransferEngine.Engine.TakeReadLock | src/asanypath/_transfer.py:151 | taking the read lock does that step and keeps the invariant |
| TransferEngine.Engine.ReadChunk | src/asanypath/_transfer.py:151-156 | a read that returns bytes numbers them before the lock is released |
| TransferEngine.Engine.SeeEndOfSource | src/asanypath/_transfer.py:152-154 | an empty read ends the worker and gives back lock and slot |
| TransferEngine.Engine.PartStored | src/asanypath/_transfer.py:157-158 | an acknowledged part is recorded under its number and its slot given back |
| TransferEngine.Engine.PartFailed | src/asanypath/_transfer.py:157-167 | a failed part ends its worker, gives its slot back and makes the call fail, even if the part landed |
| TransferEngine.Engine.ReadFailed | src/asanypath/_transfer.py:151-167 | a failed read gives back lock and slot and makes the call fail |
| TransferEngine.Engine.StopWorker | src/asanypath/_transfer.py:109-117 | a cancelled worker joins its disk read and gives back what it holds |
| TransferEngine.Engine.StartRangeRead | src/asanypath/_transfer.py:216-217 | a range read takes a slot of the same budget |
| TransferEngine.Engine.FinishRangeRead | src/asanypath/_transfer.py:216-233 | a range read gives its slot back |
| TransferEngine.Engine.CancelUpload | src/asanypath/_transfer.py:163-167 | cancelling a call lets its workers be stopped and nothing else |
| TransferEngine.Engine.RunAll | src/asanypath/_transfer.py:142-167 | whatever runnable coroutine the event loop resumes next, after finitely many steps all uploads and reads have ended and every slot is back |
| S3Lifecycle.PartSize | src/asanypath/s3.py:202 | the part size is what was asked for, or the default, raised to 5 MiB where it is less |
| S3Lifecycle.StepKeepsInv | src/asanypath/s3.py:212-255 | every reply, failure, worker step and cancellation keeps the invariant of the call |
| S3Lifecycle.EveryCall | src/asanypath/s3.py:197-255 | in every state of every call the complete request lists parts 1..k of the source, each stored as sent and, but for the last, full and so at least 5 MiB; no part is in flight when complete or abort is out |
| S3Lifecycle.NoIdLeaks | src/asanypath/s3.py:219-254 | a call that is over and was cancelled at most once has completed or tried to abort the id that was created, exactly unless the creation was reported as failed though it had worked |
| S3Lifecycle.LeaksExactly | src/asanypath/s3.py:219-254 | for any number of cancellations anywhere: when the call is over, an id that was created is neither completed nor aborted exactly if its reply was lost, or the call was cancelled in the second wait for it |
| S3Lifecycle.SucceedsExactly | src/asanypath/s3.py:225-254 | a call that is over has succeeded, its upload completed, exactly if it had workers, was never cancelled and none of its requests and reads raised; an abort is tried only after one of these |
| S3Lifecycle.GoesOn | src/asanypath/s3.py:225-240 | until then it can always go on without anything failing: create, upload the parts, complete |
| S3Lifecycle.CallsEnd | src/asanypath/s3.py:219-255 | no call goes on for ever, however often it is cancelled |
| S3Lifecycle.SecondCancellationLeaks | src/asanypath/s3.py:240-254 | a second cancellation, during recovery, leaves a created id neither completed nor aborted |
| S3Lifecycle.ListParts | src/asanypath/s3.py:227-240 | the part list is the recorded replies by increasing number |
| S3Lifecycle.Multipart.CreationReturns | src/asanypath/s3.py:220-225 | the creation's reply is recorded; the invariant is kept |
| S3Lifecycle.Multipart.CreationRaises | src/asanypath/s3.py:220-246 | a failed creation is recorded, whether or not the service created an id |
| S3Lifecycle.Multipart.Resume | src/asanypath/s3.py:224-251 | behind the shielded wait the call uploads, aborts an id that came too late, or raises |
| S3Lifecycle.Multipart.WorkerSteps | src/asanypath/s3.py:227-237 | a worker step of the pool is a step of the call |
| S3Lifecycle.Multipart.JoinWorkers | src/asanypath/s3.py:237-240 | when all workers have ended the call completes with the whole list, or aborts if one raised |
| S3Lifecycle.Multipart.CompleteReturns | src/asanypath/s3.py:238-240 | the call succeeds, having completed the upload |
| S3Lifecycle.Multipart.CompleteRaises | src/asanypath/s3.py:238-254 | a failed complete request is followed by an abort |
| S3Lifecycle.Multipart.AbortEnds | src/asanypath/s3.py:247-254 | after the abort the exception goes on, whatever the abort did |
| S3Lifecycle.Multipart.CancelCall | src/asanypath/s3.py:240-254 | a cancellation at any wait leads to recovery, to stopping the workers, to an abort, or out |
| RangeReader.ReachesEnd | src/asanypath/cloud.py:464-472 | sequential reading gets the whole object exactly if no window before the end comes back short, also when the size is a multiple of the window |
| RangeReader.Windows | src/asanypath/cloud.py:456-460 | data read at once is cut into pieces of the window size, of which only the last may be shorter |
| RangeReader.IterBytes | src/asanypath/cloud.py:450-472 | what is yielded is a prefix of the object in pieces of the chunk size, only the last may be shorter; the iteration ends normally exactly if every window that was asked for, up to the first that came short, was answered with bytes (without range reads: if the read was), and otherwise raises; a size that is not positive is refused |
| RangeReader.StartRound | src/asanypath/_transfer.py:257-263 | a round asks for as many consecutive windows as there are streams, fewer only at the end of the object |
| RangeReader.StreamCountIsShare | src/asanypath/_transfer.py:250-256 | a round has the most streams, at least one, that the cap, the file's share of the floor and the size allow |
| RangeReader.GatherRound | src/asanypath/_transfer.py:264-272 | a round ends normally exactly if every range came back with its full length, and then its chunks are that stretch of the object, in order, each a full window but for the end of the object |
| RangeReader.EveryWindowAnswered | src/asanypath/_transfer.py:250-272 | round by round amounts to: every window of the object is answered in full |
| RangeReader.Rounds | src/asanypath/_transfer.py:250-272 | the rounds end normally exactly if every window is answered in full; however the number of active files changes, each round but the last has its full width, and the ranges of all rounds tile the object |
| RangeReader.Probe | src/asanypath/_transfer.py:237-249 | the probe succeeds exactly if the first window is answered in full, or the server's whole reply has the expected size, and yields that |
| RangeReader.TransferChunks | src/asanypath/_transfer.py:171-279 | every path (streaming, whole read, probe fallback, parallel ranges) ends normally exactly if its own requests were answered in full, and on the ranged path the object is at the end what the first stat said; a normal end means the chunks concatenate to the object (when streaming: exactly if no window came short); any end means they are a prefix of it, in pieces of one size; ranges tile the object |
| TransferScopes.ActKeepsInv | src/asanypath/_transfer.py:66-74 | entering and leaving scopes and budgets and starting tasks keep each counter equal to the counted scopes that are open |
| TransferScopes.CounterIsExact | src/asanypath/_transfer.py:83-103 | in every run `active_files` is the number of counted open scopes, and zero again when all blocks have been left |
| TransferScopes.NestedScopesCountOnce | src/asanypath/_transfer.py:91-103 | scopes nested without a `with` on a budget between them count one, in a task started inside a counted scope none |
| TransferScopes.CountedOnceExactly | src/asanypath/_transfer.py:66-103 | wherever a task started, a budget counts its transfer at most once, with what the task inherited, exactly if it does not leave that budget for another and come back |
| TransferScopes.SeesNoneExactly | src/asanypath/_transfer.py:83-103 | in every run, a task inside a scope finds `active_files` at zero exactly if it inherited its place in that budget, entered no other since, and no task that the budget counts is left |
| TransferScopes.DividesByZeroExactly | src/asanypath/_transfer.py:130-139 | such a task, and no other, raises ZeroDivisionError when it begins a parallel upload |
| TransferScopes.OrphanSeesNone | src/asanypath/_transfer.py:91-103 | a task started inside a scope that enters one itself after that scope has ended is in that position |
| TransferScopes.AlternatingBudgetsCountTwice | src/asanypath/_transfer.py:83-103 | coming back to a budget inside a scope of another makes it count one transfer twice |
| TransferScopes.Loop.OpenWith | src/asanypath/_transfer.py:66-68 | `with budget` puts it in force for the block |
| TransferScopes.Loop.BeginScope | src/asanypath/_transfer.py:83-98 | a scope uses the budget in force, or the loop's, and counts unless that budget already did |
| TransferScopes.Loop.EndBlock | src/asanypath/_transfer.py:70-103 | leaving a block restores the context of before and uncounts what it counted |
| ResumableDownload.KeptIsGenuine | src/asanypath/cloud.py:564-573 | what a call keeps of an earlier attempt is a prefix of the object it downloads |
| ResumableDownload.ResultIsObject | src/asanypath/cloud.py:581-590 | what is committed is the object exactly if the kept bytes were its prefix and no byte was missed |
| ResumableDownload.AnonymousObjectsStitch | src/asanypath/cloud.py:567-573 | without ETag and Last-Modified two versions of one size can be stitched into neither |
| ResumableDownload.MetaBeforeUnlinkIsUnsafe | src/asanypath/cloud.py:574-577 | writing the sidecar before unlinking the old part would break the invariant at that moment |
| ResumableDownload.Files.Restart | src/asanypath/cloud.py:574-577 | killed between any two of its operations, starting over keeps "a non-empty part whose sidecar decodes is a prefix of the object the sidecar names" |
| ResumableDownload.Files.Stream | src/asanypath/cloud.py:579-588 | whether it ends, raises or is killed with bytes unflushed, the part holds what was there followed by the next bytes of the object |
| ResumableDownload.Files.WriteInPlace | src/asanypath/cloud.py:557-560 | without a probe the destination is emptied and written: whole, a prefix if killed between, untouched before |
| ResumableDownload.Files.Download | src/asanypath/cloud.py:555-592 | a probed call raises exactly if one of the range reads that it makes does; if it lives long enough it otherwise finishes, the destination is what was kept followed by the bytes that came (all, if every read brings some), and part and sidecar are gone; until the rename the destination is left alone; a call without a probe leaves part and sidecar alone and the destination as written in place, torn only if it is killed there; a call that raises never writes the destination |
| ResumableDownload.Session | src/asanypath/cloud.py:534-592 | over any runs, probed or not, killed anywhere, with the object changing between them: the destination is what it was if no run wrote it; otherwise it is the whole version met by the last run that wrote it, exactly unless that run was unprobed and killed with bytes unwritten; a run that lives long enough and meets no error finishes, and after it the destination is the version just met |
| ResumableDownload.TornDownload | src/asanypath/cloud.py:557-560 | an unprobed run killed inside its write leaves a file that is neither the old one nor the object |
| Moves.MoveConserves | src/asanypath/_transfer.py:468-498 | between two different objects, wherever one move stops the bytes are at the source or at the destination; at a normal end they are at the destination and the source is gone exactly if it was to be removed; a copy that raises leaves the source; no third object changes |
| Moves.MoveKeepsExactly | src/asanypath/cloud.py:896-909 | a move that ends normally keeps the bytes exactly if the check beforehand did not call two different contents equal and the two paths are the same string or name different objects |
| Moves.CopyArrivesExactly | src/asanypath/_transfer.py:386-410 | a copy that ends normally keeps the source, and the destination holds the bytes exactly if it was not misjudged |
| Moves.ComputedSumsDecide | src/asanypath/_transfer.py:386-410 | when every reported checksum was computed from the bytes, files are called equal exactly if they are, whichever checksums the two stores report |
| Moves.StrongestDecides | src/asanypath/_transfer.py:404-410 | the strongest checksum that both report decides, sha256 before sha1 before md5; contents are compared only if they have none in common |
| Moves.DestinationKept | src/asanypath/cloud.py:896-898 | without force, or if it was reported equal, an object already at the destination keeps its content at every end of a move |
| Moves.RefusesToOverwrite | src/asanypath/cloud.py:897-898 | without force a move onto other content raises and changes nothing |
| Moves.EndsNormallyExactly | src/asanypath/cloud.py:896-909 | when a move ends normally, in terms of the files before it: nothing is in its way, or force was given; and what had to be written, reported and removed was |
| Moves.MoveOntoAliasLosesData | src/asanypath/_transfer.py:392 | moving an object to another string for the same object (a doubled slash, for example) copies nothing, deletes the only copy and ends normally |
| Moves.EmptyChecksumsLoseData | src/asanypath/azure.py:278-285 | two Azure blobs without Content-MD5 are called equal, and moving one onto the other without force deletes the source and copies nothing |
| Moves.MoveAllConserves | src/asanypath/cloud.py:1047-1098 | wherever a sequence of moves between separate objects stops, each file is whole at its source or destination; at a normal end all have arrived |
| Moves.NothingOverwritten | src/asanypath/cloud.py:1081-1088 | wherever a sequence of moves without force stops, no object that was there before is changed but the sources that are removed |
| Moves.AllEndNormallyExactly | src/asanypath/cloud.py:1047-1098 | a sequence of moves between separate objects ends normally exactly if each of them would, judged by the files before the first |
| Moves.HiddenStays | src/asanypath/cloud.py:1047-1051 | an object whose name is also a prefix is taken for a directory: it is neither copied nor removed, and the call can still succeed |
| Moves.OthersUntouched | src/asanypath/cloud.py:1047-1098 | objects that no move names keep their content |
| Moves.SamePathsUntouched | src/asanypath/cloud.py:1084-1086 | moving paths onto themselves changes nothing and succeeds |
| Moves.WalkDistinct | src/asanypath/cloud.py:1047-1051 | walking a tree to a disjoint place names no path twice |
| Moves.WalkSeparate | src/asanypath/cloud.py:1047-1051 | if different path strings name different objects there, such a walk names no object twice |
| Moves.OverlapLosesExactly | src/asanypath/cloud.py:1047-1098 | in a sequence of moves whose sources differ and whose destinations differ, but may overlap, a file is lost before its turn exactly if an earlier move goes to where it is and carries other bytes; and it is at its destination at the end exactly if not, and no later move takes it on |
| Moves.OverlapCanLose | src/asanypath/cloud.py:1047-1098 | in overlapping trees a forced move can overwrite a file that it was yet to move |
| Moves.World.MoveFile | src/asanypath/cloud.py:865-909 | one file: check, copy if needed, report, remove the source, stopping where a request fails; the exact condition for a normal end; without force another object at the destination is untouched |
| Moves.World.MoveRecursive | src/asanypath/cloud.py:1047-1098 | the recursion over directories moves the files of the walk in order and stops at the first failure |
| Moves.World.MoveTree | src/asanypath/cloud.py:1101-1105 | at every end each file is at its source or destination, and without force no object that was there is changed but the removed sources; it ends normally exactly if every move goes and, when moving, nothing hidden is left below; success leaves all at the destination and, when moving, nothing below the source; a tree moved onto itself stays |
| LruCache.OpsKeepGood | rust/src/cache.rs:125-206 | `get`, `set` and `delete` keep keys and recency stamps pairwise distinct |
| LruCache.GetByRecency | rust/src/cache.rs:125-152 | a hit returns the row's value and moves it to the front of the recency list; a miss changes nothing but drops the key if it had expired |
| LruCache.HitsExactly | rust/src/cache.rs:125-152 | a key is hit exactly if it is in the table without an expiry or with one still to come |
| LruCache.LiveExactly | rust/src/cache.rs:172-175 | before it makes room a set drops the old value of its key and exactly what has expired |
| LruCache.FittingIsLongest | rust/src/cache.rs:178-188 | what eviction keeps is the longest most-recently-used prefix that fits |
| LruCache.EvictionKeepsPrefix | rust/src/cache.rs:178-188 | deleting the keys whose cumulative size exceeds the budget keeps exactly that prefix |
| LruCache.SetByRecency | rust/src/cache.rs:155-198 | a retained value goes to the front, behind it exactly the longest prefix of the live rows that leaves room for it |
| LruCache.SetWithinLimit | rust/src/cache.rs:155-198 | from a state within the limit, or with a retained value from any state, the stored bytes are within the limit |
| LruCache.NotRetainedLeavesNone | rust/src/cache.rs:176-178 | a value too large, or with no time to live left, is not retained, and evicts nothing |
| LruCache.NothingEvictedWhenAllFits | rust/src/cache.rs:178-188 | nothing live is evicted when everything fits |
| LruCache.CacheForgetsButNeverLies | rust/src/cache.rs:125-215 | after any operations a hit is the last value set for that key, not deleted since and not expired; stamps are distinct and the bytes within the limit |
| LruCache.AllIsRememberedThatFits | rust/src/cache.rs:125-215 | on a clock that does not run backwards, if all that was ever set fits, the cache is a map: a key is hit exactly if its last value was not deleted and has not expired, and with that value |
| LruStack.AccessKeepsInclusion | rust/src/cache.rs:125-198 | one access keeps the smaller recency list a prefix of the larger |
| LruStack.ReadIsAccess | src/asanypath/cache.py:75-86 | reading a key whose value fits does to the recency list what a textbook LRU does, hits exactly if the key is listed, and returns the backend's value |
| LruStack.LastReadIsFirst | src/asanypath/cache.py:75-86 | the key read last is first in the recency list |
| LruStack.StackInclusion | rust/src/cache.rs:125-198 | for the same reads, with values that fit the smaller limit and no expiry, the smaller cache's recency list is a prefix of the larger one's |
| LruStack.LargerNeverLosesAHit | src/asanypath/cache.py:75-86 | a larger limit never loses a hit |
| LruStack.OversizedRead | rust/src/cache.rs:176-178 | a value too large to be retained leaves the recency list as it was |
| LruStack.OversizedBreaksInclusion | rust/src/cache.rs:176-178 | a value that fits only the larger limit keeps the inclusion exactly if the smaller cache is empty |
| DownloadCache.Cache.Lookup | rust/src/cache.rs:125-152 | the transaction of `get` is the function whose properties are proved |
| DownloadCache.Cache.Store | rust/src/cache.rs:155-198 | the transaction of `set` likewise; a time to live that is not finite is refused and changes nothing |
| DownloadCache.Cache.Remove | rust/src/cache.rs:200-207 | the statement of `delete` likewise |
| DownloadCache.Cache.Clear | rust/src/cache.rs:209-216 | nothing is left |
| DownloadCache.Cache.ReadThrough | src/asanypath/cache.py:75-86 | look up, look up again, fetch and store |
| SingleFlight.ActKeepsInv | src/asanypath/cache.py:75-86 | any step of any caller keeps at most one of them inside the lock of a key, and the count of fetches |
| SingleFlight.NoDeadlock | src/asanypath/cache.py:80-86 | a caller that is not finished can go on, or waits for a lock whose holder can |
| SingleFlight.StampedeFetchesOnce | src/asanypath/cache.py:57-62 | counted over the run, a key is fetched at most once more than fetches of it fail, are cancelled, are not retained or are dropped; without any of that at most once, however many callers ask |
| SingleFlight.CachedIsServed | src/asanypath/cache.py:77-83 | a caller that finds its key cached, before or under the lock, gets the value at once |
| SingleFlight.CallersGetOn | src/asanypath/cache.py:75-86 | no caller goes through more than five steps of its own |
| SingleFlight.FailsExactly | src/asanypath/cache.py:80-86 | a caller gets an exception exactly if its own fetch fails or it is cancelled itself |
| SingleFlight.RunIsGenuine | src/asanypath/cache.py:75-86 | every caller that gets something gets the content of its key |
| SingleFlight.Front.FirstLook | src/asanypath/cache.py:77-79 | the look-up before the lock |
| SingleFlight.Front.TakeKeyLock | src/asanypath/cache.py:80 | taking the lock of the key |
| SingleFlight.Front.SecondLook | src/asanypath/cache.py:81-84 | the look-up under the lock: a hit gives the lock back, a miss fetches |
| SingleFlight.Front.FetchRaises | src/asanypath/cache.py:80-84 | a fetch that raises gives the lock back |
| SingleFlight.Front.StoreReturns | src/asanypath/cache.py:85-86 | the value is handed out whether or not it was retained |
| SingleFlight.Front.CancelCaller | src/asanypath/cache.py:80-86 | a cancelled caller gives its lock back |
| KeyPaths.SearchesBelow | rust/src/listing.rs:37-44 | however many slashes stand around a path, what is searched begins with its core and one slash, and is everything only for a path of slashes |
| KeyPaths.PlainKeyIsAddressable | rust/src/listing.rs:46-56 | a plain key lies under the prefix, and the path a URL parser makes of it (trimming, dropping, cutting, backslashes, dot segments) is the key itself, exactly unless the URL ends with the key and the key with a blank or a control character |
| KeyPaths.SkippedWithReason | rust/src/listing.rs:46-56 | a key without a percent sign is not plain only if its URL would name something else |
| KeyPaths.EscapedDots | rust/src/listing.rs:46-48 | dots count as dot segments when they are escaped |
| TreeDelete.PageIsWhole | rust/src/backend.rs:373-376 | a page is complete whatever part of the deletes before it landed first |
| TreeDelete.PageDone | rust/src/backend.rs:364-371 | dealing with a page adds exactly its plain keys to the deleted and its other keys to the skipped |
| TreeDelete.BatchSizes | rust/src/gcs.rs:738 | no request carries more than 100, 256 or 1000 keys |
| TreeDelete.DeletePage | rust/src/backend.rs:343-349 | only keys of the page are sent; it succeeds exactly if every batch that this page is cut into, and every single request, was acknowledged, and then every key was |
| TreeDelete.DeleteTree | rust/src/backend.rs:355-381 | at every end what was not sent is still there, only plain keys below what the path denotes were sent, page by page in listing order, and every acknowledged key was acknowledged when its own page was sent; on success every key below it at the start, and no other, was acknowledged or is returned as skipped, never both, and the skipped are exactly those that are not plain; it fails only if a listing or a page in hand did |
| BatchRequest.Body | rust/src/multipart.rs:34-44 | the body is the tagged parts one after the other and the closing delimiter |
| BatchRequest.RequestsReadBack | rust/src/multipart.rs:31-44 | read by section 5.1 of RFC 2046 the body gives back every request, in order, tagged with its number and ended by its blank line |
| BatchReply.ReadStatuses | rust/src/multipart.rs:48-83 | the parser's loops compute the function whose properties are proved |
| BatchReply.DelimiterFound | rust/src/multipart.rs:50-56 | the first line that looks like a delimiter is the delimiter |
| BatchReply.PartRead | rust/src/multipart.rs:58-78 | each part yields its number, wrapped or not, or none, and its status |
| BatchReply.RoundTrip | rust/src/multipart.rs:48-83 | for parts in any order, with or without a number, in any header case, padding and wrapping, with a delimiter that occurs nowhere else, the reply gives back exactly their numbers and statuses |
| BatchDelete.FirstFailed | rust/src/multipart.rs:87-104 | filling the slots and searching them finds the first failing key |
| BatchDelete.FirstFailingIsLowest | rust/src/multipart.rs:87-104 | nothing is reported exactly if every key got a 2xx or 404; otherwise it is the lowest key that did not, with its answer |
| BatchDelete.LastAnswerCounts | rust/src/multipart.rs:92-96 | a key has an answer exactly if some part names it or, naming none, stands at its position; the last such part counts |
| BatchDelete.TaggedAnswer | rust/src/multipart.rs:92-96 | when parts answer for distinct keys their order does not matter |
| BatchDelete.ReplyPasses | rust/src/multipart.rs:48-123 | from the wire to the verdict, for parts with and without numbers, repeated or not: a reply passes exactly if for every key of the batch the last part that answers for it, by number or by position, is a 2xx or 404 |
| BatchDelete.ChunksPartition | rust/src/gcs.rs:728-734 | cutting keys into batches loses, repeats and reorders none, and no batch is empty or too large |
| BatchDelete.XmlTextExactly | rust/src/s3.rs:575-579 | keys go into an XML body exactly if each character is one of XML 1.0 (section 2.2) |
| BatchDelete.BufferUnordered | rust/src/backend.rs:297-305 | requests are begun in order, never more than the given number in flight, and end in any order; it succeeds exactly if all would, and stops at the first that failed |
| BatchDelete.DeleteInBatches | rust/src/azure.rs:504-511 | at most four batches are in flight; success exactly if every key of every batch was acknowledged; each key is in one batch |
| BatchDelete.DeleteEach | rust/src/backend.rs:309-329 | one request per key, at most 64 in flight; success exactly if every key was acknowledged |
| BatchDelete.DeleteForS3 | rust/src/s3.rs:558-570 | keys that XML cannot carry go one by one, at most 64 at a time, and only when all of them succeeded the others in batches of at most a thousand, four at a time; success exactly if all requests succeeded |
| S3DeleteReply.ParseDeleteErrors | rust/src/s3.rs:630-676 | the event loop computes the function whose properties are proved |
| S3DeleteReply.ReplyReadBack | rust/src/s3.rs:628-676 | a complete reply gives exactly the failures other than NoSuchKey, in order, however its text is cut into pieces and entities; none exactly if every failure was a key already gone |
| S3DeleteReply.CutOffGivesPrefix | rust/src/s3.rs:670 | a reply that is cut off or malformed gives a prefix of the failures, never an invented one |
| S3DeleteReply.CutOffPassesExactly | rust/src/s3.rs:670 | a reply cut off behind some entries passes exactly if none of those entries is a real failure: failures behind the cut are missed |
| Listing.Builder.Insert | rust/src/listing.rs:87-101 | index and entries stay in step, and the view gains the child as it should |
| Listing.Builder.AddPrefix | rust/src/listing.rs:105-107 | a common prefix adds its directory |
| Listing.Builder.AddObject | rust/src/listing.rs:110-123 | a key adds a file, or the directory it lies below |
| Listing.Builder.AddPages | rust/src/listing.rs:104-124 | the view is the same wherever the pages are cut |
| Listing.ListLevel | rust/src/listing.rs:67-124 | a whole listing returns every child of the view exactly once, with what is known of it, whatever the pages |
| Listing.InsertAllDescribes | rust/src/listing.rs:87-101 | the view knows every mentioned child, a directory if any mention says so, and nothing else |
| Listing.OrderIrrelevant | rust/src/listing.rs:87-123 | listings that mention the same children in any order, however often, give the same view |
| Listing.SearchPrefixIsPrefix | rust/src/listing.rs:37-44 | the search prefix is empty or the trimmed path and one slash |
| Listing.DirectoryView | rust/src/listing.rs:87-123 | a child is listed exactly if a key is it or lies below it, is a directory exactly if one lies below it, and otherwise a file with that key's size and time |
| Listing.ListingIsDirectory | rust/src/listing.rs:58-131 | listing a path, flat or with a delimiter, gives one entry for each child: its uri is the base, the path and the name with one slash between, it is a directory without size and time if some key lies below it, and otherwise a file with the size and time of its key |
| Listing.FlatAndDelimiterAgree | rust/src/listing.rs:104-124 | flat pages and delimiter pages of one key set give the same entries, if no key has '/' right behind the prefix |
| Listing.SameChildExactly | rust/src/listing.rs:110-123 | a key counts the same on both kinds of page exactly if nothing but slashes follows a '/' right behind the prefix |
| Calendar.AlwaysADate | rust/src/azure.rs:232-245 | every integer day gives a valid Gregorian date (leap years as in Appendix C of RFC 3339) |
| Calendar.EpochIsDayZero | rust/src/azure.rs:232-245 | day 0 is 1 January 1970 |
| Calendar.Successor | rust/src/azure.rs:232-245 | the date of day n+1 is the calendar's successor of the date of day n |
| Calendar.ClosedFormCounts | rust/src/azure.rs:232-245 | the closed form equals counting days one at a time, forward and backward |
| Calendar.Bijection | rust/src/azure.rs:232-245 | every valid date is the date of exactly one day |
| Calendar.CopyAgrees | rust/src/gcs.rs:1269-1287 | the inline copy agrees with it |
| Calendar.SecondsRoundTrip | rust/src/gcs.rs:1269-1287 | the six fields are a valid moment and name exactly one second |
| CliQueue.ActKeepsInv | src/asanypath/cli.py:379-404 | every step of producer, workers and main keeps: the queue holds the next items in order and behind them only sentinels, no item is started twice, every sentinel waits or has sent one worker home |
| CliQueue.ItemsBeforeSentinels | src/asanypath/cli.py:390-399 | once a worker has left all items have left the queue |
| CliQueue.OverMeansAllRun | src/asanypath/cli.py:425-429 | at the end the queue is empty, each discovered item ran exactly once, successes plus failures are the items discovered, and an exception of the stream is raised only then |
| CliQueue.RunRecords | src/asanypath/cli.py:329-334 | each item that ended well is counted, and each that did not is listed, in the order in which they ended |
| CliQueue.NoDeadlock | src/asanypath/cli.py:379-429 | until the main coroutine is through some step is possible, with the queue bounded at twice the workers |
| CliQueue.EveryRun | src/asanypath/cli.py:250-429 | every run over a finite stream that may raise anywhere ends, with a queue of at most twice the workers, and ends with all that was discovered run exactly once and reported as the success or failure it was; the exception of the stream is raised exactly if there was one |
| CliQueue.Runner.PutItem | src/asanypath/cli.py:381-386 | an item enters the queue when there is room |
| CliQueue.Runner.PutSentinel | src/asanypath/cli.py:390-392 | one sentinel per worker, whether or not the stream raised |
| CliQueue.Runner.GetNext | src/asanypath/cli.py:394-404 | a worker gets an item to run, or a sentinel and leaves |
| CliQueue.Runner.ItemEnds | src/asanypath/cli.py:331-334 | an item that ends counts as success or failure and never ends the worker |
| CliQueue.Runner.MainProceeds | src/asanypath/cli.py:427-429 | main waits for the queue, then the workers, then the producer |
| MicroBatcher.ActKeepsInv | src/asanypath/batcher.py:92-116 | every step keeps: pending keys and scheduled flushes match one to one, every call is in one list or batch of its own key, whoever waits has something to wait for |
| MicroBatcher.ActSettles | src/asanypath/batcher.py:154-164 | a future that is done never changes |
| MicroBatcher.RunSettles | src/asanypath/batcher.py:92-164 | over whole runs every future completes at most once |
| MicroBatcher.CompleteAt | src/asanypath/batcher.py:154-164 | the i-th future of a batch gets the i-th result or an exception, and is done unless the reply had nothing for it |
| MicroBatcher.OutcomeExactly | src/asanypath/batcher.py:154-164 | what becomes of the i-th future for every reply: the value of its own position (None if there is no list), an exception if the call raised or some value could not be wrapped, or nothing |
| MicroBatcher.WaitsExactly | src/asanypath/batcher.py:154-164 | call by call, whatever the reply: one waits for ever exactly if it waited, the reply has nothing at its position, and no value failed to be wrapped |
| MicroBatcher.AllCompleteExactly | src/asanypath/batcher.py:154-164 | a batch is completed exactly if the native call returned nothing, enough results, or an ordinary exception, or if some value could not be wrapped, which fails the rest |
| MicroBatcher.WorkRunsOut | src/asanypath/batcher.py:92-116 | flushes and batches are at most two for each call, so they run out when no call comes any more |
| MicroBatcher.KeepsGoing | src/asanypath/batcher.py:106-116 | as long as a flush is scheduled or a batch is under way, one of them can go on |
| MicroBatcher.EveryRun | src/asanypath/batcher.py:92-164 | calls share a batch only with identical keys, each gets the value it would have got alone, and none waits once nothing is under way, unless a native call returned too few results or was interrupted |
| MicroBatcher.Batcher.SubmitCall | src/asanypath/batcher.py:92-104 | the first call of a key schedules its flush, the others join |
| MicroBatcher.Batcher.RunFlush | src/asanypath/batcher.py:106-115 | a flush always finds calls and sends them all |
| MicroBatcher.Batcher.FinishBatch | src/asanypath/batcher.py:154-164 | the completion loops do to the futures what the machine says |
| SftpRemove.ActKeepsInv | src/asanypath/ssh.py:667-687 | every step of every task, failures and cancellations included, keeps slots conserved, phases of a directory and its entries in step, and removed directories empty before |
| SftpRemove.RemovalsAreSafe | src/asanypath/ssh.py:675-687 | at most sixteen requests are in flight, and one for a directory only when every listed child was removed |
| SftpRemove.NoDeadlock | src/asanypath/ssh.py:667-687 | for any depth and width, until the removal is over some step is possible that neither fails nor cancels |
| SftpRemove.ActDecreases | src/asanypath/ssh.py:667-687 | every step lowers a measure of the phases |
| SftpRemove.EveryRun | src/asanypath/ssh.py:664-687 | every run of every tree: at most sixteen in flight, bounded length, nothing under way at the end, nothing left on success, and every directory above what was not removed is kept |
| SftpRemove.MaximalRunsFinish | src/asanypath/ssh.py:664-687 | a run that cannot go on is over; if nothing failed everything is gone |
| SftpRemove.Removal.ListDirectory | src/asanypath/ssh.py:682 | listing a directory starts a task on each child |
| SftpRemove.Removal.JoinChildren | src/asanypath/ssh.py:683-685 | when all children have ended the directory goes on exactly if none failed |
| SftpRemove.Removal.TakeRemovalSlot | src/asanypath/ssh.py:675-687 | the semaphore is taken around one request |
| SftpRemove.Removal.RemovalDone | src/asanypath/ssh.py:675-687 | and given back when it ends |
| SftpRemove.Removal.RemovalFails | src/asanypath/ssh.py:675-687 | also when it fails, even if it had its effect |
| SftpRemove.Removal.StopEntry | src/asanypath/ssh.py:675-687 | and when the task is cancelled |

## Left out

- Network, disk, SQLite, TLS and SSH themselves, retries and signing: a request is a step that succeeds with its stated effect
  or fails, possibly after having had its effect.
- Machine integers: sizes, counters and days are unbounded, so overflow of `i64` in the calendar and of sizes near `i64::MAX`
  in the cache is not modelled; only content ids and statuses have their widths.
- Text is sequences of characters: invalid UTF-8 in a batch reply, and blanks beyond ASCII, are not modelled.
- Fairness: runs are shown to be finite and never stuck; how long one task may be passed over is not.
- Binary floating point: times and times to live of the cache are real numbers; a value that is not finite is a case of its own.
- TreeDelete.DeleteTree: a page always looks at some key, because a service that repeats a token for ever would keep
  the loop going for ever; other writers to the prefix meanwhile are not modelled.
- BatchDelete.BufferUnordered: that as many requests are in flight as may be is not stated, only that never more are.
- S3DeleteReply.ReplyReadBack: starts from XML events; the tokeniser, namespaces and entities are not modelled.
- S3Lifecycle.NoIdLeaks: a creation that worked though its reply was lost is the stated exception; the code cannot know the id.
- ResumableDownload.Files.Download: the flush of what was written before the final rename reaches the disk in order; power
  failure is not modelled, only the end of the process; a disk write that raises is treated like such an end.
- KeyPaths.PlainKeyIsAddressable: other characters are escaped by the URL parser and unescaped by the service, which is not modelled.
- S3Lifecycle.EveryCall: when the scope of the upload begins is not modelled; the number of workers, zero included, is a parameter.
- RangeReader.TransferChunks: the stat behind the transfer reports the true size; conditional requests (If-Match) are not
  modelled, the object being fixed.
- TransferScopes.CountedOnceExactly: blocks of one task end in the opposite order of their beginning; an async generator that is
  left half way inside a scope is not modelled.
- CliQueue.EveryRun: the size look-up before an item does not raise a cancellation of its own, and nobody cancels the whole command.
- SingleFlight.StampedeFetchesOnce: the cache is a map that may drop keys at any time, not the table with its limit.
- MicroBatcher.EveryRun: a batch is one native call; whether it uses HTTP/2 is not modelled.
- SftpRemove.EveryRun: nobody else writes into the tree, and listing does not count against the limit, as in the code.
- Moves.World.MoveTree: the tree is fixed while it is walked; the code lists lazily, which comes to the same only if source and
  destination are disjoint; overlapping moves are covered as sequences of moves (`OverlapLosesExactly`), not as walks. Making
  destination directories and recursive moves into a local directory are not modelled.
- The listing's time-to-live cache, copying with temporary files and atomic commit, GCS resumable uploads, FTP, HTTP and
  Artifactory adapters, credentials, access policies, terminal output and option parsing.
