# Verification of SyncdSim / Contech

The program traces a parallel run as a graph of tasks, and simulates a directory coherence protocol,
caches and schedules on that graph. This project models its algorithmic cores and proves what they
promise. `dafny verify dfyconfig.toml` checks everything.

**Directory coherence (`Coherence*.dfy`, `Memory.dfy`, `Handler.dfy`).** `Coherence` is the protocol
at one line address as a transition system over any number of nodes: message handlers, directory,
blocked requests, an abstract cache that answers in order and may evict. `Config.proto` selects MESI
or MSI, so every statement holds for both. The proofs rest on one idea: what a node will be after
the messages already in its queue (`CoherenceView`) changes only when the home node sends, and the
home node's directory describes exactly those future states (`CoherenceHome`). `CoherenceDiagram`
and `CoherenceAnswers` say for every reachable step how a node's line moves through the states and
what is sent in answer to what, and that blocked requests are served as if they arrived then; the
first also shows that M marks exactly the written lines and that MSI never has a fourth state.
`Memory` lifts the results to all addresses at once; `Handler` is the handler and the directory as
objects that update maps and queues, proved to do what the functions of `Coherence` say.

**Race detector (`Tasks`, `VectorClock`, `RaceDetector`, `RaceAccesses`, `Heltech`).** Vector clocks
with reference counts decide reachability, and clocks are dropped exactly when no successor is left.
A byte is reported if and only if, in the watched region, some access is unordered with the last
write before it, or the byte's first write with its first access; for a region that starts with the
trace this covers every access unordered with an earlier write. `SecondReaderMissed` is a race
outside this condition.

**Cache sweep (`Lru`, `SimpleCache`, `CacheSweep`).** The time-stamped sets hold the most recently
used blocks; a cache of twice the size holds a superset at every point and never misses more.

**Task graph files (`TaskIndex`, `Barrier`).** The index writer, and the grouping of barrier events
into rounds.

**Event merge (`EventMerge`, `MergeScan`, `MergeEnd`, `MergeLoss`, `EventQueue`).** The events of
all contexts are taken from the trace file by ticket and barrier number. `EventMerge` has the
invariant: nothing lost, nothing out of order. `MergeScan` has the search through the queues with
its hint, and says exactly when the answer none leaves due events behind; `MergeEnd` proves that
otherwise a complete trace is returned completely, and `MergeLoss` gives a complete trace of eight
events of which two are never returned. `EventQueue` is the class, proved to do what these functions
say.

**Schedules (`Scheduler`, `CriticalPath`).** Release of tasks by counting, and the longest path.

**Trace format (`Codec`, `TraceBuffer`, `EventReader`, `OpList`, `Elision`).** Writers and parser
undo each other byte by byte, ids and addresses that are not stored included; `OpList` builds the
table from which the parser derives such addresses.

**Buffer pool (`BufferPool`).** Threads and the background writer as interleaved steps between
locks: no buffer is lost, and the bytes each thread records are in the file, the queue and its own
buffer, in order. The writer links a buffer to the tail of an empty hold list in some run exactly if
the limit is at least 1 and at most one more than the number of threads (`FailsIff`); a thread can
wait with nobody left to free a buffer exactly if the limit is 0 (`StuckIff`).

Where code and comments differ, the code is followed. The header of the handler says that its map
matches the cache, but `Cache::invalidateLine` (backend/Simulator/cache.cpp:79-82) clears the valid
bit of a copy: the cache keeps a line the handler has erased, and reports its eviction later.
`operator[]` then inserts the first enumerator, M, and the handler writes back a line it does not
have. `CoherenceStray` follows that to two writers, and `SingleWriterIff` shows that tracked
evictions are what the protocol depends on.

## Model

| member | source | states |
|---|---|---|
| CoherenceSafety.StepKeeps | backend/Simulator/MSIHandler.cpp:157-545 | every delivery, cache answer, new operation and eviction, in MSI and MESI, keeps the system invariant, and its handler passes its assertions |
| CoherenceSafety.AssertionsHold | backend/Simulator/MESIHandler.cpp:182-625 | in every reachable state of any number of nodes no assertion of the next handler fails, no empty queue is popped and every message has an existing receiver |
| CoherenceSafety.SingleWriter | backend/Simulator/MESIHandler.cpp:182-625 | in every reachable state a line in M or E at one node is absent at all others |
| CoherenceSafety.DirectoryAgreement | backend/Simulator/directory.cpp:12-77 | UNCACHED: no copy, grant or write-back anywhere; SHARED: every holder or grant is in the mask; MODIFIED or EXCLUSIVE: the mask is one node, and no other is involved |
| CoherenceTokens.AckConservation | backend/Simulator/MESIHandler.cpp:356-391 | `pendingInvAckCount` is the number of nodes that owe an acknowledgement, as INVALIDATE on the way, demand being carried out or INVALIDATE_ACK, each counted once |
| CoherenceTokens.NoLostTransaction | backend/Simulator/MESIHandler.cpp:55-76 | a waiting node's operation is represented exactly once: request on the way, request blocked at home, reply, or cache work |
| CoherenceTokens.QueueDiscipline | backend/Simulator/MESIHandler.cpp:483-524 | the front of home's queue, and only it, is serviced, and what it waits for exists: an acknowledgement owed, or a fetch or write-back of the one owner |
| CoherenceTokens.RollbackRetries | backend/Simulator/MESIHandler.cpp:609-613 | ROLLBACK reaches only a node whose line is gone, and the retried operation asks with WRITE_MISS |
| CoherenceTokens.NoDeadlock | backend/Simulator/MESIHandler.cpp:628-653 | when no message or cache request is left, no node waits and no request is blocked |
| CoherenceProgress.MessageCostOk | backend/Simulator/MESIHandler.cpp:182-625 | handling any message lowers a potential, whatever it sends and serves from the queue |
| CoherenceProgress.OperationsComplete | backend/Simulator/processor.cpp:52-90 | from any reachable state handling ends within a bound, and then every operation is over |
| CoherenceStray.TwoWriters | backend/Simulator/cache.cpp:74-157 | a run in which caches evict only lines they were given, and two nodes end with the line in M: home's cache keeps the line that was demanded from home, and evicts it late |
| CoherenceStray.SingleWriterIff | backend/Simulator/MESIHandler.hpp:10-11 | with two nodes or more and such caches, single writer holds at the end of all runs if and only if evictions are reported for tracked lines only |
| CoherenceAnswers.RequestAnswered | backend/Simulator/MSIHandler.cpp:157-353 | home's answer to a request that finds nothing blocked, by the entry alone: a read of a line nobody has gets DATA_VALUE_REPLY_E and EXCLUSIVE in MESI, DATA_VALUE_REPLY and SHARED in MSI; sharers are invalidated once each and counted; an owner is asked to write back; a stale upgrade is rolled back |
| CoherenceAnswers.RequestWaits | backend/Simulator/MESIHandler.cpp:202-353 | a request that finds something blocked joins the queue, and nothing is sent |
| CoherenceAnswers.DrainRedelivers | backend/Simulator/MESIHandler.cpp:55-76 | the blocked requests are served as if they arrived now, one after the other |
| CoherenceAnswers.AckAnswered | backend/Simulator/MESIHandler.cpp:356-391 | each acknowledgement counts one down; the last one makes the front requester the owner, then the blocked requests follow |
| CoherenceAnswers.WriteBackAnswered | backend/Simulator/MESIHandler.cpp:483-524 | a write-back goes to the front requester, alone for a write and beside the sharers for a read, then the blocked requests follow; without a request it erases the entry |
| CoherenceAnswers.NodeAnswered | backend/Simulator/MESIHandler.cpp:79-178 | what a node sends, blocks and asks of its cache for demands, replies, cache answers, new operations and evictions |
| CoherenceDiagram.LineDiagram | backend/Simulator/MESIHandler.cpp:393-480 | the state diagram of a line: which step moves it where, from which state, and that no other step moves it |
| CoherenceDiagram.PhaseDiagram | backend/Simulator/MESIHandler.cpp:79-178 | an operation waits for the reply that its kind and the line call for, and ends by it alone |
| CoherenceDiagram.WrittenIff | backend/Simulator/MESIHandler.cpp:79-147 | along every run a line is in M if and only if a write went through at the node since it had the line in I or S |
| CoherenceDiagram.MsiThreeStates | backend/Simulator/MSIHandler.cpp:157-200 | in MSI no line is E, no entry EXCLUSIVE and no DATA_VALUE_REPLY_E on the way |
| Memory.HomeShare | backend/Simulator/context.cpp:114-121 | node h is home to exactly the addresses from h * 2^(48 - bits) to below (h + 1) * 2^(48 - bits) |
| Memory.HomeNodeExists | backend/Simulator/context.cpp:114-121 | the shifted address is the number of an existing node |
| Memory.StepHere | backend/Simulator/MESIHandler.cpp:182-625 | a step of the whole memory is a step of the one-address protocol at its address |
| Memory.StepElsewhere | backend/Simulator/MESIHandler.cpp:182-625 | and changes nothing at any other address |
| Memory.EachAddressIsARun | backend/Simulator/context.cpp:64-91 | with one operation at a time per node, each address goes through a run of the one-address protocol |
| Memory.MemAssertionsHold | backend/Simulator/MESIHandler.cpp:182-625 | no assertion fails in the whole memory |
| Memory.MemSingleWriter | backend/Simulator/MESIHandler.cpp:182-625 | single writer at every address |
| Memory.MemDirectory | backend/Simulator/directory.cpp:12-77 | directory agreement at every address |
| Memory.MemNoDeadlock | backend/Simulator/MESIHandler.cpp:628-653 | no deadlock in the whole memory |
| Handler.Directory.LookUpEntry | backend/Simulator/directory.cpp:12-19 | an absent entry is created as UNCACHED without sharers, nothing else changes |
| Handler.Directory.UpdateEntry | backend/Simulator/directory.cpp:22-77 | sharers accumulate, owners replace, UNCACHED erases; a new entry gets the one bit |
| Handler.ProtocolHandler.InvalidateSharers | backend/Simulator/MESIHandler.cpp:248-258 | one INVALIDATE to every sharer but the one skipped, and their number |
| Handler.ProtocolHandler.ServeReadMiss | backend/Simulator/MESIHandler.cpp:202-235 | reply, directory and blocking of a read miss are those of the protocol function |
| Handler.ProtocolHandler.ServeWriteMiss | backend/Simulator/MESIHandler.cpp:237-277 | the same of a write miss, with the count of acknowledgements |
| Handler.ProtocolHandler.ServeInvalidateOther | backend/Simulator/MESIHandler.cpp:306-353 | the same of an upgrade, with its rollback |
| Handler.ProtocolHandler.DrainQueue | backend/Simulator/MESIHandler.cpp:55-71 | the loop serves requests from the front until one blocks, as the recursive function does |
| Handler.ProtocolHandler.CheckBlockedQueueAtAddress | backend/Simulator/MESIHandler.cpp:55-76 | and leaves no empty queue in the map |
| Handler.ProtocolHandler.OnInvalidate | backend/Simulator/MESIHandler.cpp:279-303 | acknowledged at once when the line is gone, else passed to the cache |
| Handler.ProtocolHandler.OnInvalidateAck | backend/Simulator/MESIHandler.cpp:356-391 | the last acknowledgement makes the waiting writer owner and moves the queue on |
| Handler.ProtocolHandler.OnFetch | backend/Simulator/MESIHandler.cpp:410-442 | a fetch of a line that is gone is dropped, else demoted or erased and passed to the cache |
| Handler.ProtocolHandler.OnReply | backend/Simulator/MESIHandler.cpp:393-480 | replies fill the line as M, S or E by operation and reply |
| Handler.ProtocolHandler.OnWriteBack | backend/Simulator/MESIHandler.cpp:483-524 | a write-back goes to the waiting request, or empties the directory entry |
| Handler.ProtocolHandler.OnCacheAck | backend/Simulator/MESIHandler.cpp:552-590 | the demand at the front is answered and the queue moves on |
| Handler.ProtocolHandler.OnEviction | backend/Simulator/MESIHandler.cpp:593-607 | a line not in S is written back and leaves the map |
| Handler.ProtocolHandler.OnRollback | backend/Simulator/MESIHandler.cpp:609-613 | the operation is over for now and must be retried |
| Handler.ProtocolHandler.HandleMessage | backend/Simulator/MESIHandler.cpp:182-625 | dispatch: state, messages, cache requests and result are those of the protocol function |
| Handler.ProtocolHandler.AddToBlockedMsgMap | backend/Simulator/MESIHandler.cpp:35-53 | demands on the own line go to the front of the queue, requests to its back |
| Handler.ProtocolHandler.ReceiveMsg | backend/Simulator/MESIHandler.cpp:640-651 | one iteration of the delivery loop is one delivery of the protocol |
| Handler.ProtocolHandler.HandleMemOpRequest | backend/Simulator/MESIHandler.cpp:79-178 | a new operation goes to home or to the cache by the state of the line |
| Handler.AlwaysReceivable | backend/Simulator/MESIHandler.cpp:628-653 | in every reachable state of the memory the preconditions of `ReceiveMsg` hold for the next message |
| Tasks.ChainPath | middle/Context.cpp:127-192 | tasks of one context, each linked to the one before, are ordered by paths |
| VectorClock.CoversIsPath | backend/Heltech/heltech.cpp:107-123 | on an exact clock the test of `hbPathCheck` holds if and only if a path exists |
| VectorClock.StillReferenced | backend/Heltech/heltech.cpp:91-95 | a task with a successor still to come has a reference left |
| VectorClock.GiveUpOk | backend/Heltech/heltech.cpp:91-95 | when a successor comes the clock is still there, and giving up its reference keeps every count exact |
| VectorClock.Clocks.UpdateVecClock | backend/Heltech/heltech.cpp:57-99 | after each task its clock is exact, and clocks are kept exactly for tasks with a successor to come or none |
| VectorClock.Clocks.HbPathCheck | backend/Heltech/heltech.cpp:107-123 | the nested lookups decide covering |
| RaceDetector.WriteRaceFound | backend/Heltech/heltech.cpp:216-279 | an access unordered with an earlier write always leads to a report for its byte |
| RaceDetector.RaceIsReal | backend/Heltech/heltech.cpp:229-256 | what is reported is such a pair, or the byte's first access with its first write |
| RaceDetector.DetectorExact | backend/Heltech/heltech.cpp:210-289 | a byte is reported if and only if one of the two exists |
| RaceDetector.ReportsAreTrueRaces | backend/Heltech/heltech.cpp:229-256 | a reported byte has two accesses, one a write, by tasks with no path either way |
| RaceDetector.SecondReaderMissed | backend/Heltech/heltech.cpp:265-279 | a trace with a race that is not reported: a second reader before a write |
| RaceDetector.ReportedIff | backend/Heltech/heltech.cpp:210-289 | with reporting from any task on, a byte is reported if and only if an access of the region is unordered with the last write before it, or the byte's first write with its first access |
| RaceAccesses.EventsListed | backend/Heltech/heltech.cpp:165-210 | the bytes gone through are every byte of every access of every task once, by task, access and byte, and no others |
| RaceAccesses.RacedIff | backend/Heltech/heltech.cpp:210-289 | the same condition in terms of the tasks' accesses |
| Heltech.Detector.AccessByte | backend/Heltech/heltech.cpp:210-289 | last access, raced bytes and reports stay what the events say |
| Heltech.HbRaceDetector | backend/Heltech/heltech.cpp:125-301 | the raced bytes of a trace are exactly those, and each has one report, which names two accesses of the byte, one a write, by tasks with no path either way |
| Lru.TopIsResident | backend/SimpleCache/simpleCache.cpp:37-97 | the most recently used blocks of a set are those with fewer than `ways` others used since |
| Lru.TopTouch | backend/SimpleCache/simpleCache.cpp:37-97 | using a block puts it in front and drops the last of a full set |
| Lru.Inclusion | backend/SimpleCache/main.cpp:24-34 | splitting the sets loses no resident block |
| SimpleCache.Scan | backend/SimpleCache/simpleCache.cpp:46-61 | finds the tag, or the first line with the least access number |
| SimpleCache.UpdateSet | backend/SimpleCache/simpleCache.cpp:37-97 | the set goes from its most recently used blocks to those after one more use; a hit exactly if the block was among them |
| SimpleCache.TagAndIndex | backend/SimpleCache/simpleCache.cpp:102-110 | tag and index computed from the address name its block number |
| SimpleCache.VisitedCover | backend/SimpleCache/simpleCache.cpp:116-129 | the blocks visited are exactly those with an accessed byte |
| SimpleCache.Cache.Contents | backend/SimpleCache/simpleCache.cpp:37-97 | a set holds exactly its resident blocks, at most 2^s of them, no tag twice |
| SimpleCache.Cache.UpdateCacheLine | backend/SimpleCache/simpleCache.cpp:37-97 | hit if and only if resident, for the history of all uses |
| SimpleCache.Cache.UpdateCache | backend/SimpleCache/simpleCache.cpp:99-141 | visits the covering blocks in order, also around the end of the index range; counters |
| CacheSweep.SweepInclusion | backend/SimpleCache/main.cpp:24-34 | every block resident at size c is resident at any larger size at the same point |
| CacheSweep.SweepMonotone | backend/SimpleCache/main.cpp:24-34 | a larger cache never has more misses on the same requests |
| CacheSweep.RequestsListed | backend/SimpleCache/simpleCache.cpp:235-270 | the requests are every operation in pieces of 8 bytes, in order, with its direction: each byte once, and no other |
| CacheSweep.MissesAre | backend/SimpleCache/simpleCache.cpp:131-141 | a request misses once if one of its blocks is not resident when its turn comes |
| CacheSweep.RunTrace | backend/SimpleCache/simpleCache.cpp:163-273 | misses counted for a trace are those of the LRU definition |
| CacheSweep.Sweep | backend/SimpleCache/main.cpp:24-34 | the counts of the 19 sizes never increase |
| TaskIndex.IndexForward | middle/taskWrite.cpp:472-510 | no task twice, every edge into an indexed task goes forward |
| TaskIndex.FullIffAcyclic | middle/taskWrite.cpp:526-528 | the final assertion holds if and only if the graph has no cycle and no second starting point |
| TaskIndex.IndexIs | middle/taskWrite.cpp:472-510 | in terms of the list alone: each task comes after all its predecessors and is an oldest that can come there, and in the end none can |
| TaskIndex.TellSuccessors | middle/taskWrite.cpp:493-504 | counts and ready tasks after the successor loop |
| TaskIndex.WriteIndex | middle/taskWrite.cpp:457-528 | each task written was ready and no ready task older, until none is ready; and what the final test says |
| Scheduler.Simulator.TellSuccessor | backend/Simulator/simulator.cpp:59-93 | one successor: counted down, or released if that was its last predecessor, and taken out of all its predecessors' counts |
| Scheduler.Simulator.Complete | backend/Simulator/simulator.cpp:49-95 | after each completion both tables agree with graph and completed tasks; released are the successors whose predecessors are all done, in their order |
| Scheduler.ReleasedOnceAndInTime | backend/Simulator/simulator.cpp:75-92 | a task is released once, only after all predecessors, and as soon as they have completed |
| Scheduler.AllRun | backend/Simulator/simulator.cpp:41-97 | on an acyclic graph with one root, all tasks run and both tables end empty |
| CriticalPath.Scan | backend/CritPath/main.cpp:658-706 | the greatest length among the predecessors, and the first of those that have it |
| CriticalPath.BestIsLongest | backend/CritPath/main.cpp:658-706 | the recurrence gives the largest duration sum over all paths to the task, reached by one |
| CriticalPath.LongestPaths | backend/CritPath/main.cpp:419-718 | and does so for every task visited, with links along such paths |
| CriticalPath.WalkBack | backend/CritPath/main.cpp:754-828 | durations along the links add up to the length, except that of task 0 where the walk stops |
| Barrier.RunFits | middle/middle.cpp:564-647 | in every event sequence where all enter a round before any leaves, each event fits the two barriers kept |
| Barrier.EveryNthExit | middle/BarrierWrapper.cpp:153-165 | a round finishes exactly on every N-th exit |
| Barrier.BarrierWrapper.OnEnter | middle/BarrierWrapper.cpp:11-69 | one task a round, created by the first to enter, linked both ways, that starts when the last of them arrived; a context unknown to the barrier being left joins that one |
| Barrier.BarrierWrapper.OnExit | middle/BarrierWrapper.cpp:71-172 | finds the round the context is in, never keeps more than one exit task, sets the end at the first exit only, and reports the last exit |
| Barrier.BarrierWrapper.Leave | middle/middle.cpp:585-646 | a finished barrier task has every participant once before it and once after it |
| EventMerge.NotBefore | middle/eventQ.cpp:296-338 | a number read from the file is never below the next one |
| EventMerge.MergeSafe | middle/eventQ.cpp:147-371 | each event read is returned, queued or held back, once, in file order per context; the k-th sync has ticket k, the k-th barrier number k; creations only after `readyEvents` |
| MergeScan.ScanFinds | middle/eventQ.cpp:156-261 | the search finds an event if and only if the hint does not stop it and a queue from the current one on can provide one, or any queue when the last one is empty |
| MergeScan.HintIs | middle/eventQ.cpp:156-261 | only a search through all queues changes the hint: every second one sets it to the least ticket waited for in the queues searched, the others switch it off, and a last queue that waits for a barrier leaves the number alone |
| MergeScan.LeftOverIff | middle/eventQ.cpp:147-371 | with the file read, none is returned while an event is due exactly if the hint stops the search, or the due queues are before the current one and the last one is not empty |
| MergeScan.NoneSettled | middle/eventQ.cpp:147-371 | a call that begins with a full search, or with every queue blocked, returns none only if every queue waits for a number whose turn has not come |
| MergeScan.GetGood | middle/eventQ.cpp:147-371 | a call returns one event or, with the file read, none, and keeps the invariant of `MergeSafe` and the exact count of queued events |
| MergeEnd.NoneComplete | middle/eventQ.cpp:147-371 | if such a call returns none on a trace with no number missing, and all contexts are ready, every event was returned |
| MergeLoss.TicketLost | middle/eventQ.cpp:227-259 | a trace with no number missing of which tickets 5 and 6 are never returned: from the seventh call on the answer is none although ticket 5 is due |
| EventQueue.EventList.FromQueues | middle/eventQ.cpp:156-261 | event, queues, current queue and hint after the first loop are those of the search |
| EventQueue.EventList.SkipKept | middle/eventQ.cpp:263-294 | the second loop appends what is read to queues and held events until another context comes |
| EventQueue.EventList.Place | middle/eventQ.cpp:296-368 | an event read is returned, queued or held back by its number and context; one that waits for its number starts a full search |
| EventQueue.EventList.GetNextContechEvent | middle/eventQ.cpp:147-371 | the next event; none only with the file read, and after a full search only if every queue is blocked |
| EventQueue.EventList.ReadyEvents | middle/eventQ.cpp:373-392 | held events become a queue and the search starts at the first, or a note is left |
| Codec.NumberRoundTrip | common/eventLib/ct_event.cpp:42-112 | little-endian numbers read back |
| Codec.OpsRoundTrip | common/eventLib/ct_event.cpp:283-323 | operations of a block read back, addresses of duplicates rebuilt from their base |
| Codec.IdRoundTrip | common/runtime/ct_runtime.c:662-679 | ids below 2^23 read back from three bytes |
| Codec.ByteOf | common/eventLib/ct_event.cpp:42-112 | byte i of a number is its i-th digit in base 256 |
| Codec.EventLayout | common/runtime/ct_runtime.c:723-909 | code, place and width of each field in the bytes of each kind of event |
| Codec.BlockLayout | common/runtime/ct_runtime.c:662-721 | the bytes of a block: 7 bits and 16 bits of its id, or none, and six for each operation that is not derived |
| Codec.StoredOpAt | common/runtime/ct_runtime.c:697-721 | the place of each stored address |
| Codec.EventRoundTrip | common/eventLib/ct_event.cpp:135-681 | each event reads back, whatever bytes follow |
| Codec.StreamRoundTrip | common/eventLib/ct_event.cpp:135-681 | a sequence of events reads back, consuming exactly its bytes |
| TraceBuffer.SerialBuffer.StoreBasicBlock | common/runtime/ct_runtime.c:662-679 | three bytes of the four stored count |
| TraceBuffer.SerialBuffer.StoreMemOp | common/runtime/ct_runtime.c:697-721 | six bytes of the eight stored count |
| TraceBuffer.SerialBuffer.RunBlock | common/runtime/ct_runtime.c:662-721 | a block's calls append exactly its encoding, overlapping stores notwithstanding |
| TraceBuffer.SerialBuffer.StoreSync | common/runtime/ct_runtime.c:723-747 | appends the encoding, nothing for a failed operation |
| TraceBuffer.SerialBuffer.StoreThreadCreate | common/runtime/ct_runtime.c:749-766 | appends the encoding |
| TraceBuffer.SerialBuffer.StoreMemoryEvent | common/runtime/ct_runtime.c:768-784 | appends the encoding |
| TraceBuffer.SerialBuffer.StoreBulkMemoryEvent | common/runtime/ct_runtime.c:786-802 | appends the encoding |
| TraceBuffer.SerialBuffer.StoreBarrier | common/runtime/ct_runtime.c:804-823 | appends the encoding |
| TraceBuffer.SerialBuffer.StoreThreadJoin | common/runtime/ct_runtime.c:830-848 | appends the encoding |
| TraceBuffer.SerialBuffer.StoreDelay | common/runtime/ct_runtime.c:850-865 | appends the encoding |
| TraceBuffer.SerialBuffer.StoreMPITransfer | common/runtime/ct_runtime.c:867-896 | appends the encoding |
| TraceBuffer.SerialBuffer.StoreMPIWait | common/runtime/ct_runtime.c:898-909 | appends the encoding |
| EventReader.EventLib.Unpack | common/eventLib/ct_event.cpp:42-112 | sums shifted bytes to the number |
| EventReader.EventLib.ReadOps | common/eventLib/ct_event.cpp:283-323 | reads or rebuilds each operation |
| EventReader.EventLib.CreateContechEvent | common/eventLib/ct_event.cpp:135-681 | event, position and pending id after a read are those of the parser's function |
| Elision.Pass.MayElide | llvm-contech/Contech.cpp:449-489 | true if and only if there are predecessors and each is earlier, branches to this block only, and has no call, atomic, exceptional or split end |
| Elision.ElidesIff | llvm-contech/Contech.cpp:1448-1464 | the ids left out are those of the blocks for which this holds and that store fewer than 160 addresses |
| Elision.Pass.ApplyElide | llvm-contech/Contech.cpp:490-503 | every predecessor learns the id, nothing else changes |
| OpList.BuildOps | llvm-contech/Contech.cpp:1672-1752 | the two walks over a block list every operation, and with each derived one the position of its base and the offset |
| OpList.PositionIff | llvm-contech/Contech.cpp:1698-1752 | the position written is that of the base if and only if it has at most 16 bits |
| OpList.RunDescribed | llvm-contech/Contech.cpp:1672-1752 | the addresses of a block in any run are as its table entry says |
| Elision.Pass.ProcessBlock | llvm-contech/Contech.cpp:1448-1464 | the information kept is right after each block |
| Elision.Pass.WriteBlockInfo | llvm-contech/Contech.cpp:1117-1175 | the table written is the one the proof of the round trip uses |
| Elision.OneStepAgrees | llvm-contech/Contech.cpp:444-506 | on every control flow step an id is left out exactly when the parser knows it |
| Elision.ElisionRoundTrip | llvm-contech/Contech.cpp:449-506 | the bytes of any execution path read back as its events, where anything may be recorded after a block with a call, an atomic, an exceptional or split end, no branch, or not one successor |
| BufferPool.StepGood | common/runtime/ct_runtime.c:119-174 | every step of any thread or of the writer keeps each buffer in one place and the counter exact; only returning a buffer can fail |
| BufferPool.QueueAdds | common/runtime/ct_runtime.c:400-468 | a buffer with something in it is queued as one entry with its thread and bytes, as a copy if it holds less than 64 KB and memory can be had |
| BufferPool.StepOrder | common/runtime/ct_main.c:321-406 | no step loses, repeats or reorders a thread's bytes, and only recording adds to them |
| BufferPool.NothingLost | common/runtime/ct_main.c:321-406 | along every run the bytes a thread recorded are those in the file, then in the queue, then in its buffer |
| BufferPool.PoolConserved | common/runtime/ct_runtime.c:362-571 | in every reachable state: one place per buffer, and in use plus free at most the limit |
| BufferPool.DrainExact | common/runtime/ct_main.c:417-440 | emptying a non-empty hold list restores the counter exactly |
| BufferPool.NeverStuck | common/runtime/ct_runtime.c:119-174 | while a thread waits at a limit above 0, another has a buffer, or the queue or the writer has an entry; below the limit a buffer is free |
| BufferPool.StuckIff | common/runtime/ct_main.c:78-104 | some run leaves a thread waiting with nobody to go on if and only if the limit is 0 |
| BufferPool.NeverFails | common/runtime/ct_main.c:417-440 | with more than one buffer to spare nothing fails |
| BufferPool.CanFail | common/runtime/ct_main.c:417-440 | otherwise some run reaches the empty hold list |
| BufferPool.FailsIff | common/runtime/ct_main.c:417-440 | the exact limits for which it can |

## Left out

- Latencies, cycle counts and statistics of the simulator; queue heads interleave arbitrarily instead.
- The cache array of the simulator: caches answer requests in order and may report an eviction at any time the line is tracked, or in `CoherenceStray` any line they were given; which line of a set is evicted, and when an alert is handled, is left open.
- `Coherence.Phase` records which request is outstanding; handlers do not read it. The MSI handler lacks some assertions of the MESI handler; they are proved for both.
- CoherenceSafety.SingleWriter: assumes that evictions are reported for tracked lines only; SingleWriterIff shows that this is necessary.
- Splitting of memory operations over two lines and the task queue of a processor; an operation starts at any idle node for any address.
- Heltech.HbRaceDetector: traces without malloc, size and free records.
- SimpleCache.Cache.UpdateCache: the dirty bit, which nothing reads, and accesses that cover more blocks than there are sets, where two blocks of one set would get the same access number; so a cache of a single set is excluded from the backend.  The 19 sizes of the sweep have four sets or more, and an access of at most 64 bytes covers at most two blocks.
- CacheSweep.RunTrace: memcpy, malloc and free records, and operations of more than 64 bytes, for which the byte count overflows its type.
- TaskIndex.WriteIndex: file offsets and the writing of the tasks themselves; the priority queue returns any of several tasks with the least start time.
- Scheduler.Simulator.Complete: which context a task is given to, and the cap on the number of tasks.
- CriticalPath.LongestPaths: slack, synchronisation and bottleneck sums, and how durations are scaled.
- Barrier.BarrierWrapper.OnEnter: a participant that enters twice, or enters again before it has left, which the stated order of events excludes; and what becomes of a barrier that an unknown context has joined.
- EventQueue.EventList.GetNextContechEvent: rank events.  That a complete trace can lose due events is proved, not left out (MergeLoss.TicketLost).
- EventQueue.EventList.ReadyEvents: a second call for a context before its first event, which leaves a null event in the queues.
- Codec.EventRoundTrip: version, block information, buffer header, rank and region events, and traces of versions below 5.
- Codec.StreamRoundTrip: the same kinds of events.
- EventReader.EventLib.CreateContechEvent: the same kinds of events.
- Elision.ElisionRoundTrip: blocks with a base beyond operation 65535, whose position is wrong (OpList.PositionIff); buffer boundaries between a block and its successor, tail duplication and other rewriting by the compiler.
- BufferPool.StepGood: the capacity of a buffer, a failed allocation of a full-size buffer, the delay event written into a reused buffer before its position is reset, and the writer's reading of the queue head without a lock.
- OpenMP, Cilk and MPI context switching, the Pin tool, file access, signals, printing and plotting.
