# A model of the key-value store's write pipeline, read path and checker

The JavaScript side of the store turns `put`, `remove`, `ifVersion` and `batch` into a binary stream of
write instructions in chained shared buffers; a native thread parses and runs that stream inside one write
transaction. The two sides meet only in the flag word of each instruction. Values may be compressed by a third
thread on the way. Reads go through reusable cursors and a shared read transaction, and the vendored checker
accounts for every page of the file. This project models those parts in Dafny and proves what they are for.

Run `dafny verify dfyconfig.toml`.

| file | part |
|---|---|
| `Options`, `MachineWords` | absent values; IEEE doubles holding addresses, little-endian words, instruction flag bits |
| `FlagWord`, `PublishProtocol`, `PublishInvariant`, `PublishAllocation`, `PublishPublication`, `PublishWorker`, `PublishTheorems`, `PublishProgress`, `PublishSettlement`, `PublishCompletion`, `PublishOutcomes`, `PublishAttribution`, `PublishCounterexample` | the hand-off of flag words between producer, workers and promise list, as a state machine over the individual memory accesses |
| `BatchInterruption` | the lock, condition and interruption protocol by which JavaScript splits a running batch |
| `InstructionCodec`, `InstructionChain`, `WriteStream`, `BatchProducer`, `BatchTheorems` | the instruction layout, its parser, the encoder over chained buffers, and the producer calls that drive it |
| `Interpreter`, `NativeWriter`, `ConditionalBatch` | what the native loop makes of an instruction, the loop over memory, and compiled against direct execution |
| `CompressionHandshake`, `StoredRecord` | who compresses a value, and the stored form of values |
| `KeyOrder`, `CursorRange`, `ReadTransactions` | key comparison, ranges and counts, the life of shared read transactions |
| `PageAccounting` | the checker's page map and totals |

How it is modelled:

- Threads are interleaved atomic steps under sequential consistency; a step is one access to a shared word or one
  stretch of code between two lock operations.
- The database is a map from database number and key to the stored bytes; a snapshot is a sorted sequence of rows.
  Library calls mean what their documentation says about these.
- Shared memory is one map from word addresses to 32-bit words, so that an address means the same to both sides; an
  absent word is zero, as buffers are zero-filled when made.
- LZ4 is a pair of functions of which, under one dictionary, one inverts the other; compressing is assumed to succeed.
- What the allocator returns, the bytes behind an address, the file's trees and free lists, and the scheduler's
  choices are parameters.
- Code that changes state is a class or a method with its loops; what such a method does is stated through functions
  on values, and the properties are proved about those.

Findings about the code, each stated below in its exact form:

- With two delimiters outstanding behind the transaction being settled, the single `nextTxn` link is overwritten and
  promises are settled by the wrong transaction (`write.js:352-353`): `PublishCounterexample.OverwrittenDelimiter` is
  such a run, and `PublishAttribution.OwnTransactionExactlyWhen` says that this is the only way.
- The jump record after an instruction with all four trailing fields is guaranteed to stay in the buffer only for a
  maximum key size of 1, 2 or 3 modulo 8 (`write.js:40`): `WriteStream.JumpFitsExactlyWhen`.
- Ends of blocks are not checked against the threshold (`write.js:498-505`): after one, the jump record behind the next
  instruction is guaranteed to stay in the buffer only for those same key sizes, and after two or more for none:
  `WriteStream.JumpFitsAfterEndsExactlyWhen`.
- For an empty value whose buffer has a start offset, the encoder looks at a byte outside the value and may ask for a
  compression the native side declines (`write.js:150-164`, `src/compression.cpp:125-126`):
  `StoredRecord.DecisionsAgreeExactlyWhen`.
- `putWithVersion` ignores the put flags it is given (`src/misc.cpp:294`); the no-overwrite option of a versioned put is
  honoured only because the loop has looked the key up before (`src/writer.cpp:207-210`). The model follows the code.
- A long compression header leaves its second byte unwritten (`src/compression.cpp:140-148`); reading never looks at it.

## Model

| member | source | states |
|---|---|---|
| FlagWord.OrIsBitwise | src/writer.cpp:21-45 | or-ing two 32-bit flag words is or-ing their waiting, delimiter, finished, failed, committed and error fields one by one, and publishing into a word without an instruction gives it exactly that instruction |
| FlagWord.BitsReadBack | write.js:361-370 | every bit test of both sides, the waiting bit and the instruction bits included, reads exactly the record's field |
| PublishTheorems.RunKeepsInv | src/writer.cpp:142-315 | every interleaving of producer, workers, callbacks and promise walk keeps the invariant |
| PublishTheorems.ExecutedOnceInOrder | src/writer.cpp:216-237 | in every reachable state the executed instructions are the published ones before the cursor plus the one in progress, each once, in stream order, and those are the finished ones |
| PublishTheorems.OneOwnerOfTheCursor | write.js:256-263 | at a delimiter exactly one of these is in charge: the running worker, the remembered start address, or one spawned worker for that very word |
| PublishProgress.NeverStuck | write.js:266-277 | whenever a published instruction waits under the cursor, whatever JavaScript is doing, an enabled step brings its execution strictly nearer by a well-founded measure: no wake-up is lost |
| PublishProgress.RankNeverRises | src/writer.cpp:216-237 | no step of any thread takes the worker side farther from that instruction |
| PublishProgress.MovesPast | src/writer.cpp:145-313 | from every such state the driving steps alone lead past the instruction |
| PublishProgress.PublishedIsExecuted | src/writer.cpp:145-313 | every state whose first words are published has a continuation in which each operation among them has been executed and is marked finished |
| PublishTheorems.PlainStoreIsSafe | write.js:231-237 | a plain in-batch store never lands on a delimiter and loses nothing but the waiting bit |
| PublishTheorems.StructuralWordsAreNotDelimiters | write.js:498-505 | block ends and jump records never carry a delimiter |
| PublishTheorems.BitsSurvive | src/writer.cpp:309-313 | instruction, delimiter, finished, failed, committed and error bits of every word survive every stretch of every run |
| PublishTheorems.DepthIsNesting | src/writer.cpp:238-246 | the depth the protocol carries is block starts minus block ends |
| PublishTheorems.CommitsOutsideBlocks | src/writer.cpp:221-234 | every commit, by delimiter or by interruption, falls where all blocks opened so far are closed |
| PublishTheorems.InterruptionCommits | src/writer.cpp:119-133 | an interruption commits just what the worker has consumed, at nesting depth 0, and the worker then looks at its word anew or goes on waiting for its callbacks |
| PublishTheorems.SettledOnceInOrder | write.js:386-404 | promises are settled once each, in queue order, without gaps |
| PublishTheorems.SettledByOwnTransaction | write.js:374-422 | a promise resolves only by a committed delimiter behind it, with false exactly for a failed condition, rejects only by a failed one; the delimiter is its own unless a link was overwritten |
| PublishTheorems.WalkedBeforeSettling | write.js:361-384 | when the settling loop looks at a delimiter every earlier promise has been walked and its recorded flag is final |
| PublishSettlement.RunRemembers | write.js:324-326 | no delimiter is forgotten: each has its outcome or a worker about to record it, the last one queued stays linked until settled, and one that ended at the free slot is queued or a completion callback is due |
| PublishSettlement.SettlementNeverStuck | write.js:361-384 | whenever a transaction has ended behind an unsettled promise, whatever the threads are doing, an enabled step brings the settlement strictly nearer by a well-founded measure; it is a step of JavaScript unless the first queued delimiter still lacks its outcome |
| PublishSettlement.PromiseIsSettled | write.js:386-422 | every such state has a continuation, without another operation, in which the promise is settled: with its own status if that transaction was committed, rejected if the commit failed; the transaction is the one that ended there if none ended before it and no link was overwritten |
| PublishCompletion.EverythingSettles | write.js:322-347 | whenever JavaScript is back in its event loop with no block open, the run can go on, however the outstanding commits turn out, until every operation ever written is executed and its promise settled |
| PublishOutcomes.CommitIsReported | src/writer.cpp:331-353 | over every run, the word of a delimiter never says anything but how its commit turned out, and says so or is about to |
| PublishOutcomes.ExecutionIsReported | src/writer.cpp:292-313 | over every run, the word of an executed instruction never says anything but how it turned out, and says so once the worker has moved past it; a strict-order callback is marked finished while it is waited for |
| PublishOutcomes.SettledAsDecided | write.js:386-422 | a promise settled by a transaction resolves with true exactly if that was committed and its operation had not failed, and is rejected exactly if the commit failed |
| PublishOutcomes.CallbacksComeFirst | src/writer.cpp:269-280 | after executing a callback a worker ends no transaction, and in strict order does not move on, before JavaScript has run its callbacks |
| PublishOutcomes.WaitsOnlyForCallbacks | src/writer.cpp:216-237 | a worker waits for JavaScript only if it has executed a callback in its present transaction |
| PublishOutcomes.BuffersAreReleased | write.js:364-377 | of the promises walked, exactly those that end no transaction have let go of their buffer |
| PublishAttribution.OwnTransactionExactlyWhen | write.js:349-359 | once all queued transactions are settled, every promise was settled by its own transaction if and only if no pending link was overwritten |
| PublishAttribution.RunShows | write.js:386-404 | an overwritten link leads to a delimiter that will be passed over, or already has been |
| PublishCounterexample.OverwrittenDelimiter | write.js:349-359 | a run with three outstanding delimiters in which a promise of a failed transaction resolves with true |
| BatchInterruption.RunKeepsInv | src/writer.cpp:68-141 | every interleaving of the lock and condition protocol keeps its invariant |
| BatchInterruption.OneWriter | src/env.cpp:524-567 | never two top-level write transactions; any other transaction JavaScript has open belongs to a parked worker |
| BatchInterruption.NoBlockIsSplit | src/writer.cpp:99-141 | a worker commits, at its end or interrupted, only with no condition block open |
| BatchInterruption.LockFollowsTransactions | src/env.cpp:594-634 | JavaScript holds the lock exactly while it has a transaction open, a worker exactly while it runs |
| BatchInterruption.WaitingAllowsCommit | src/writer.cpp:99-105 | a worker that starts to wait gives up the lock, wakes a blocked JavaScript thread, and offers its transaction for a commit exactly if no block is open |
| BatchInterruption.SynchronousBeginInterrupts | src/writer.cpp:68-79 | a synchronous begin that meets such an offer opens nothing: it asks for the interruption, wakes the worker and gives up the lock |
| BatchInterruption.BeginOpens | src/env.cpp:531-567 | any other begin opens a child of the worker's transaction if that is open and can be aborted, else that transaction itself, and a root transaction if no worker has one open |
| BatchInterruption.InterruptionGivesRoot | src/writer.cpp:72-79 | from then on JavaScript has no transaction open until it has the lock and a root transaction |
| BatchInterruption.InterruptionLeadsToRoot | src/writer.cpp:119-133 | every state with an interruption asked for has a continuation to that root transaction, with the worker's work committed once and the worker parked |
| BatchInterruption.SomeInterruption | src/writer.cpp:99-141 | a run in which a worker is interrupted, resumes and commits again |
| BatchInterruption.EveryTransactionIsCommitted | src/writer.cpp:331-336 | in every step the transactions of workers go down by one exactly with a commit, at depth 0 |
| BatchInterruption.CloseGivesBack | src/env.cpp:594-613 | closing the last transaction frees the lock, clears the status and wakes the worker |
| BatchInterruption.NestedCloses | src/env.cpp:549-556 | a child transaction opened and closed leaves everything as it was |
| BatchInterruption.PokeWakes | src/writer.cpp:432-434 | the wake-up call after publishing into a waiting word wakes the worker and changes nothing else |
| BatchInterruption.CallbacksComeFirst | src/writer.cpp:269-280 | until JavaScript has been inside the worker's transaction, an executed callback keeps that from ending |
| BatchInterruption.CallbacksAreRun | src/writer.cpp:369-378 | with the lock JavaScript runs the callbacks in the worker's open transaction, else waits; when done it wakes the worker and frees the lock |
| BatchInterruption.InterruptionCompletes | src/writer.cpp:68-95 | once an interruption is asked for, each next step is enabled and brings it nearer, until JavaScript has the lock and a root transaction |
| BatchInterruption.InterruptedWorkerResumes | src/writer.cpp:119-133 | an interrupted worker stays asleep only as long as the transaction it made room for is open, and then runs on with the lock and a clear status |
| BatchInterruption.UntimedWaiterIsWoken | src/writer.cpp:116-117 | a worker waiting without a timeout for strict-order callbacks is woken: until then an enabled step of JavaScript brings the signal strictly nearer |
| MachineWords.DoubleRoundTrip | write.js:151-166 | an address below 2^53 stored as a double comes back exactly |
| MachineWords.HighWordTellsDouble | src/writer.cpp:170 | the high word of an address stored as a double exceeds the bound exactly for addresses above 2, and that of a machine pointer below 2^62 never does |
| MachineWords.FlagsRoundTrip | src/writer.cpp:148-160 | status and delimiter bits never disturb the instruction bits |
| InstructionCodec.RoundTrip | src/writer.cpp:146-203 | parsing a laid-out instruction gives back flags, database, key, value pointer and size, compression slot, condition and version, and ends where the encoder stopped |
| InstructionCodec.CompressedReadsBack | src/writer.cpp:168-187 | after compression the same parse gives the new pointer and size, all else unchanged |
| InstructionCodec.JumpRoundTrip | src/writer.cpp:284-286 | a jump record leads the parser to the buffer it was written for |
| InstructionChain.ParseInvertsWriting | src/writer.cpp:145-147 | parsing a published chain across buffers gives the instructions written, in order, and stops at the word written next |
| WriteStream.WriteBody | write.js:130-189 | the fields are stored slot by slot so that the compiled instruction is laid out, and the flags computed are its flags |
| WriteStream.InstructionEndsInBuffer | write.js:40 | starting at or below the threshold, any instruction with a legal key ends at slot 8191 or less |
| WriteStream.JumpFitsAfterThreeFields | write.js:198-205 | with at most three trailing fields the jump record fits as well |
| WriteStream.JumpFitsExactlyWhen | write.js:40 | with all four it always fits if and only if the maximum key size is 1, 2 or 3 modulo 8 |
| WriteStream.JumpFitsAfterEndsExactlyWhen | write.js:498-505 | with at most three trailing fields it always fits after one end of block if and only if the maximum key size is 1, 2 or 3 modulo 8, and after more for no key size |
| WriteStream.Encoder.WriteInstruction | write.js:63-229 | appends exactly the compiled instruction and its resolution, moves to the start of the new buffer exactly if the instruction ends past the threshold, stands at or before it afterwards, and leaves the stream alone when the key or value is too long |
| WriteStream.Encoder.Publish | write.js:230-245 | only the flag word of that instruction changes, and status bits survive the atomic form |
| WriteStream.Encoder.FinishBatch | write.js:498-505 | appends a published block end and moves the pending resolution along |
| WriteStream.StreamReadsBack | write.js:193-205 | for every stream an encoder can produce, parsing from its start gives its instructions and ends at the encoder's position |
| WriteStream.ResolutionsAddressInstructions | write.js:206-229 | the i-th resolution watches the flag word of the i-th instruction that is not a block end |
| WriteStream.WriteDirect | write.js:190-195 | inside a transaction the one reusable buffer holds the instruction the parser then reads |
| Interpreter.VersionReadsBack | src/misc.cpp:285-302 | the version in front of a record reads back |
| Interpreter.OthersUntouched | src/writer.cpp:247-283 | an operation touches its own record only, or the database it empties |
| Interpreter.VersionPutIsVersionTested | src/writer.cpp:194-202 | after a put with a version, a condition on that key holds exactly for that version |
| Interpreter.ExecObeys | src/writer.cpp:188-308 | record by record: a put without version or condition stores exactly the bytes it points to, with a version the value behind eight bytes that read as it; no-overwrite leaves a record that is there; a removal by value removes exactly that value; a drop leaves no key of its database; a condition of absence holds exactly for an absent key |
| Interpreter.RunObeys | src/writer.cpp:145-314 | in a whole stream every instruction does that to the database its predecessors left, and reports it |
| Interpreter.ExecRefinesStep | src/writer.cpp:209-268 | one instruction: the two counters follow the stack of block outcomes, and an operation runs exactly when every open condition and its own hold |
| Interpreter.RunRefinesMeaning | src/writer.cpp:145-214 | on every well-nested stream the counters are depth and longest all-true prefix, and database and statuses are those of the stack semantics |
| NativeWriter.SetStatusReads | src/writer.cpp:292-313 | or-ing an outcome into a status byte sets the finished and failed bits and no other |
| NativeWriter.Execute | src/writer.cpp:150-283 | the conditions and the switch compute one step of the interpreter, and do to each record what the instruction says |
| NativeWriter.KindsAgree | src/writer.cpp:215-291 | an instruction reports a status and moves the depth exactly as its kind in the publish protocol does |
| NativeWriter.Worker.DoWrites | src/writer.cpp:142-315 | over memory: every instruction runs once, in order; every flag word gets its mark and keeps its other bits; the first unpublished word tells end of transaction from waiting |
| ConditionalBatch.FailedBlockSkips | src/writer.cpp:209-246 | under a failed condition nothing runs, however the code nests, and the counters return |
| ConditionalBatch.StreamMeansDirect | write.js:548-599 | interpreting the compiled calls gives the database and statuses of running them directly, for every nesting of blocks |
| ConditionalBatch.CallDirect | write.js:190-195 | a put or remove inside a transaction goes through the reusable buffer and parser, and what it returns is the outcome of the direct meaning |
| ConditionalBatch.RunDirect | write.js:557-563 | the calls made inside a transaction compute the direct meaning, database and returned results alike |
| ConditionalBatch.CommitBatch | src/writer.cpp:318-356 | the worker running a published batch from memory commits the direct meaning in one transaction and marks every word accordingly |
| BatchProducer.Producer.WriteBlock | write.js:564-596 | a block lays out its start, its callback and its end, stores the flag words in the code's order, an outermost start last and atomically, and continues the stream by exactly the compiled block |
| BatchProducer.Producer.WriteAll | write.js:231-245 | a sequence of calls continues the stream by its compiled form; outside a batch the first entry keeps the status on its word and the stores are atomic, inside they are plain; it succeeds exactly if the keys are short enough and every instruction, with its jump record, stays in its buffer |
| BatchProducer.BatchEndToEnd | write.js:548-599 | from calls to database: written, published, parsed and executed, a batch does what the direct calls do, and it is written exactly if it can be laid out in the buffers there are, however many it takes |
| BatchTheorems.PublishedOnceEach | write.js:231-245 | every flag word is stored once, atomically exactly if the calls run outside a batch and no block is open around the instruction |
| BatchTheorems.WordsInMemory | write.js:231-245 | each flag word then holds its instruction's flags and, over them, the status its entry kept: on the first what the worker had left, on the others nothing |
| BatchTheorems.NestedIsLaidOut | write.js:198-205 | a batch of any length can be written, given enough buffers, if its keys leave eight bytes for each level of nesting |
| BatchTheorems.FlatIsLaidOut | write.js:198-205 | one batch of puts and removes with legal keys can always be written, whatever its length |
| CompressionHandshake.RunKeepsInv | src/compression.cpp:173-180 | every interleaving of compression thread and writer, spurious wake-ups included, keeps the invariant |
| CompressionHandshake.CompressedOnceAndMatching | src/compression.cpp:99-120 | a value is compressed exactly once and the writer takes a size and pointer that belong together |
| CompressionHandshake.WaiterWillBeSignalled | src/writer.cpp:168-182 | a waiting writer always has somebody who will signal it |
| CompressionHandshake.WriterFinishes | src/writer.cpp:168-187 | until the writer has its value, some enabled step brings it strictly nearer |
| StoredRecord.DecisionsAgreeExactlyWhen | write.js:150-164 | encoder and native side agree on compressing unless the value is empty, the threshold is not, and the stray byte looks like a status byte |
| StoredRecord.StatusByteTells | src/misc.cpp:161-169 | under compression the status byte tells exactly the compressed values |
| StoredRecord.HeaderReadsBack | src/compression.cpp:55-76 | both length headers invert for every length up to the largest value |
| StoredRecord.ReadBuffer.Compress | src/compression.cpp:122-165 | the stored bytes are the header and the compressed value, or nothing if the value is to be kept raw; the dictionary is read from the front of the buffer |
| StoredRecord.ReadBuffer.AllocateGetBuffer | read.js:50-70 | with the dictionary copied to its front, the grown buffer has room for the value, and the size left by the native side's arithmetic is the one JavaScript believes in |
| StoredRecord.ReadBuffer.GetBinary | read.js:30-74 | whatever the buffer, at most one retry, and exactly the stored value and version come back; the dictionary stays intact |
| StoredRecord.ReadBuffer.PutThenGet | src/misc.cpp:148-171 | storing and reading back returns the same bytes and version with compression and versions on or off |
| KeyOrder.CompareFast | src/ordered-binary.cpp:9-37 | comparing word by word has the sign of lexicographic byte order, shorter first, whatever follows the second key in memory |
| KeyOrder.LexAntisymmetric | src/ordered-binary.cpp:9-37 | that order is antisymmetric |
| KeyOrder.LexTransitive | src/ordered-binary.cpp:9-37 | that order is transitive |
| KeyOrder.LexZero | src/ordered-binary.cpp:36 | zero means equal keys |
| CursorRange.RangeYieldsExactly | src/cursor.cpp:135-206 | with unique keys the entries yielded are those from start, included, to end, excluded, in either direction, without the first `offset` |
| CursorRange.ValuesYieldExactly | src/cursor.cpp:159-191 | the values of one key yielded are those between the value bounds, in either direction |
| CursorRange.ExactMatchFinds | read.js:119-127 | an exact lookup of a pair finds a key to count precisely when the pair is stored |
| CursorRange.ExactMatchYields | src/cursor.cpp:180-202 | asking for an exact match changes nothing but that a range yields nothing if its key, or the pair, is not stored |
| CursorRange.JumpCounts | src/cursor.cpp:211-243 | one jump of the counting loop accounts for all values of its key |
| CursorRange.KeyCountIsDistinctKeys | src/cursor.cpp:147-153 | counting keys forward counts the distinct keys among the entries in range |
| CursorRange.Cursor.Position | src/cursor.cpp:135-206 | positioning leaves ahead exactly the rows to yield, and reports none by a zero key size |
| CursorRange.Cursor.Iterate | src/cursor.cpp:291-300 | a step drops the first of the rows ahead |
| CursorRange.WholeKeyCountIsYields | src/cursor.cpp:186-192 | the number of values of a key, counted outright, is the number iterating over them yields, in either direction |
| CursorRange.Cursor.Count | src/cursor.cpp:186-245 | counting forward from offset 0 gives the number of entries iteration would yield, also when jumping key by key or counting all values of a key; an exact count is positive exactly if the pair is stored |
| CursorRange.Cursor.GetRange | read.js:269-286 | the iterator returns the rows to yield, cut at the limit |
| ReadTransactions.OpenKeeps | read.js:190-206 | opening an iterator keeps every clause of the invariant |
| ReadTransactions.CloseKeeps | read.js:251-260 | closing one keeps them, and aborts a detached transaction exactly if it was the last |
| ReadTransactions.DetachKeeps | read.js:413-417 | detaching a transaction that still has iterators keeps them |
| ReadTransactions.ResetKeeps | read.js:418-420 | resetting one keeps them when no iterator on it keeps its snapshot |
| ReadTransactions.ReadSide.ResetReadTxn | read.js:410-421 | at the end of a turn the shared transaction is detached exactly if an open iterator keeps its snapshot, and reset otherwise; no snapshot is lost |
| ReadTransactions.ReadSide.TakeCursor | read.js:190-202 | the store's spare cursor is handed out if there is one, else a new one; it is nobody else's and is bound to the transaction, or will be before it is positioned |
| ReadTransactions.ReadSide.FinishCursor | read.js:251-268 | finishing aborts the transaction exactly if it was detached and this was its last iterator, and touches no other; the cursor is kept for its store exactly if that has none and the transaction is still the shared one, else closed |
| ReadTransactions.ReadSide.Next | read.js:270-286 | advancing positions at first and iterates afterwards, on a cursor bound to a live transaction, after moving to the present one only if that is due |
| ReadTransactions.Run | read.js:402-421 | over every run of opening, advancing, finishing and turn ends the open iterators are those opened and not finished, the counts are their numbers of each kind, and no snapshot is reset or renewed away |
| PageAccounting.CountingGivesPartition | dependencies/libmdbx/mdbx_chk.c:5142-5154 | distinct pages in two disjoint lists as long together as the range are all of it, and conversely |
| PageAccounting.HitMeansRun | dependencies/libmdbx/mdbx_chk.c:3362-3366 | in a proper free list the saturating subtraction tests exactly for a run of consecutive pages |
| PageAccounting.Stretch | dependencies/libmdbx/mdbx_chk.c:4072-4076 | the inner loop stretches the span to the run starting here and never beyond a real one |
| PageAccounting.Checker.PgVisitor | dependencies/libmdbx/mdbx_chk.c:3822-3918 | a visit marks its pages and stays silent exactly if it is sound and its pages are new and in range |
| PageAccounting.Checker.CountUnused | dependencies/libmdbx/mdbx_chk.c:5015-5017 | the unused pages are the allocated ones not walked |
| PageAccounting.Checker.ScanList | dependencies/libmdbx/mdbx_chk.c:4035-4076 | a list is silent exactly if its entries are fresh, in range and descending; the never-reset span ends as the longest run |
| PageAccounting.Checker.HandleFreedb | dependencies/libmdbx/mdbx_chk.c:4000-4101 | a record is silent exactly if it is well formed and its pages are new |
| PageAccounting.Checker.Check | dependencies/libmdbx/mdbx_chk.c:4990-5154 | nothing is reported if and only if all that was met is sound and walked and listed pages partition the allocated ones |
| PageAccounting.ClampPages | dependencies/libmdbx/mdbx_chk.c:4838-4887 | after the start-up checks the backed pages are the least of what was backed, the largest page number and the file, and the allocated ones the least of what was allocated and that |

## Left out

- The storage engine's B-tree, its MVCC and its lock files; LZ4 itself; the bindings to the JavaScript engine, timers, logging and garbage-collection pinning.
- Weak memory: the flag words are modelled under sequential consistency.
- Bytes stored by a put that carries its own `ifVersion`: the lookup reuses the variable holding the value, so they are an arbitrary function of the old record; decision and status are modelled.
- The put options `noDupData` and `append`, and dup-sorted databases, in the interpreter; the instruction layout carries their flags.
- User callbacks change no data in the interpreter; their place in the protocol is modelled. Async callbacks and recovery after a failed commit are not.
- `ifNoExists` inside a running transaction, which does not agree with the stream form; a condition on an undefined key with a version.
- The early publication of a deferred block start in the layout model: it changes only the order of stores. The publish protocol has it as a step.
- Malformed streams and instruction bits no encoder writes.
- Iterators opened inside a write transaction: their transaction is not the shared one.
- Reverse ranges over whole dup-sorted stores, where an exact start lands on the first value of its key.
- CursorRange.Cursor.Count: makes no claim when it jumps key by key backwards or from a non-zero offset, or counts all values of a key with an offset, which the code ignores; there it differs from iteration.
- PageAccounting.Checker.HandleFreedb: a list whose stated length is above the limit is read only as far as its record reaches; what lies beyond is not modelled.
- PageAccounting.Checker.PgVisitor: the checks of a page's kind, depth and byte counts are one flag of the visit.
- KeyOrder.CompareFast: lengths that differ by less than 2^31, because the difference is returned as a 32-bit int; stored keys are far shorter.
- Scheduler fairness: progress is an enabled next step with a measure it lowers, and a continuation that reaches the goal.
- Nested transactions on a writable map, stray signals between unrelated waiters, and a failing commit during an interruption.
- The caching store, the environment registry, option parsing and the remaining wrappers: they lie outside the write, read and checking paths modelled here.
