# A verified model of Clementi

Clementi runs gather-apply-scatter graph algorithms on several FPGAs. Each FPGA
gathers over the edges of the partitions scheduled on it; after every superstep
the new vertex properties travel round a ring of network links until each node
holds all of them. Around the kernels sit a partitioner, a scheduler and host
code that builds the graph. Most of it is small stream machines whose
correctness rests on invariants that are written down nowhere. This project
models those machines and proves what they are for.

`dafny verify dfyconfig.toml` verifies everything.

## How the model is laid out

| part | modules |
|---|---|
| ring all-gather (`globalTrans`, `readProp`, `writeProp`) | Frames, RingNode, Ring, RingResults, ReadProp, WriteProp, PropCopy, PropExchange, RingSupersteps |
| the host's superstep loop (`acceleratorExecute`) | HostLoop, HostSupersteps |
| source-vertex cache (cache elements, coalescer, read engine, dispatch and merge) | CachePe, SourceCache, SourceCacheResults, MergeStage, Coalesce, CoalesceChain, ReadEngine, SourcePipeline |
| gather kernel (edge reader, shuffle, filter, accumulation) | EdgeStream, Decoder, Shuffle, DstProperty, GatherKernel |
| the kernel on an edge file, with its cache | FileKernel, CacheKernel |
| `rawSolver` | RawSolver |
| partitioner and edge files (C++) | Partition, Greedy, Allocation, EdgeFile, InputAware |
| group splitting, rebalancing and edge files (Python) | GroupFiles, Rebalance |
| scheduler | Scheduler |
| host graph | CsrGraph, CsrRelabel, CsrEdgeData |
| host scans and barrier | TreeScan, Lanes, TreeScanSimd, VerticalScan, Barrier |
| shared | Sums, Sorting |

A kernel that loops over its registers is a class whose method performs one
iteration; the method is proved equal to a function on states, and the theorems
about all runs are proved for that function. A FIFO between machines that run
side by side is the log of what was written to it and how much of it was read.
Whatever the hardware leaves open (which machine moves, how much has arrived,
whether a non-blocking read sees data) is an arbitrary choice at every step, so a
statement about a run covers every timing. Kernels that end, and all host code,
are methods with loops over arrays and sequences.

## Where the code does less than it seems to

Each of these is proved, together with the exact condition under which the code
does what it is meant to.

* **Cache refill guard** (`src/src_cache/src_cache_access.cpp:244`). The guard
  compares the required vertex with the highest vertex loaded so far, not with
  the address of the line waiting to be written. A line far beyond the last one
  can therefore overwrite a row that is still needed. The packages (0 fifteen
  times, 1) and (65536 sixteen times), with bursts of 32 lines, are sorted ids
  for which some timing gives the first element a wrong word
  (`SourcePipeline.GapBreaksAnElement`). For any sorted packages and the lines
  that coalescer and read engine make for them, an element is right in all
  timings if and only if none of these lines is a hazard for its share of the ids
  (`SourcePipeline.ElementReadsMemoryIff`). There is none if the burst numbers of
  the ids never skip one, which a caller can see from the ids alone
  (`CacheKernel.ReadDenseSources`, `CacheKernel.GatherDense`).
* **Block splitting** (`partition_schedule/input_aware.cpp:125-142`). Blocks are
  erased and appended while the loop still uses the old indices, so after the
  first split it can hit another block than the one it means. It splits the
  blocks it means to if and only if their indices only ever fall
  (`Partition.SplitsTheLargestIff`). From groups of 5, 4 and 1 edges and `alpha`
  0.4 the block of four comes out whole and that of one in four parts
  (`Partition.SecondLargestIsMissed`). No edge is lost in any case.
* **Chunks of one** (`host/xgraph/util/prefixsum/singlethread_tree.cc:29-49`).
  The chunked tree scan is right for chunks of two or more. With chunks of one it
  always gives zeros, which is right if and only if all elements but the last are
  zero (`TreeScan.ChunksOfOneIff`).
* **Empty groups** (`partition_schedule/input_aware.py:44-48`). A group without
  items has no last edge to repeat: `process_group` ends in an index error, so
  that file is not written. It happens if and only if the group's sum is zero, and
  no edge is missing then (`GroupFiles.PartitionGroups`).
* **Range of `streamWrite`** (`src/clementi/streamWrite.cpp:20-29`). The comment
  asks for a multiple of 256 vertices; the kernel stores all of the range if and
  only if it is a multiple of 1024 (`HostLoop.WholeBurstsIff`). The partition size
  is one.
* **End of the edge stream** (`src/header/fpga_cache.h:39-52`). The last sixteen
  edges of a list never reach the gather. The edge files end in at least sixteen
  dummies, so nothing is missed (`FileKernel.SaveAndGather`); for an arbitrary
  list it is harmless if and only if every dropped edge is a dummy or inactive
  (`GatherKernel.DropIsHarmlessIff`).

## Model

| member | source | states |
|---|---|---|
| RingNode.GlobalTrans.Iterate | src/clementi/globalTrans.cpp:26-99 | one pass of the kernel's loop consumes from and appends to its four streams, and leaves its registers, exactly as the node's transition function used in the ring says; a node may see any part of its input. A frame visible on the ring is always taken first; with none, a node between packets takes its own next frame if and only if fewer than 32 of its packets are out |
| Ring.StepKeepsInv | src/clementi/globalTrans.cpp:26-99 | whatever node moves and whatever part of its link has arrived, all nodes stay well framed: packets are never interleaved on a link and each node relays exactly the packets of the others |
| Ring.RunKeepsInv | src/clementi/globalTrans.cpp:26-99 | the same for every state of every run of N nodes with distinct ranks |
| Ring.Lap | host/clementi/mpi_graph_dataflow.cpp:65-73 | d places round the ring from node k, what has been read of k's frames is a prefix of what k sent, in order |
| Ring.ReadIsPrefixOfSent | src/clementi/globalTrans.cpp:26-99 | the same for any two nodes of the ring |
| Ring.WrittenIsPrefixOfSent | src/clementi/globalTrans.cpp:26-99 | what any node has put on its link of any origin's frames is a prefix of what the origin sent |
| RingResults.LinksCarryWholePackets | src/clementi/globalTrans.cpp:26-99 | in every run the packets on any link that come from one origin are, in order, the first packets of that origin, frame for frame |
| RingResults.CreditCountsPacketsInFlight | src/clementi/globalTrans.cpp:16-56 | in every reachable state `write_read_num` is the number of the node's own packets on all links together, and lies between 0 and 32; so no link ever holds more than 32 of them |
| RingResults.StopsOnlyWhenDelivered | src/clementi/globalTrans.cpp:28-98 | a ring in which no node can do anything is quiescent: every queue and link is empty and every node's update stream holds every node's frames once, in each origin's order; so the ring never deadlocks |
| RingResults.EveryRunEnds | src/clementi/globalTrans.cpp:48-98 | no run makes more than (N + 1) times the number of frames moves, and it makes exactly that many if and only if it cannot go on |
| ReadProp.Read | src/clementi/readProp.cpp:26-55 | the loop over one vertex range emits the frames the packetiser specification gives for it |
| ReadProp.PropFraming | src/clementi/readProp.cpp:34-55 | every prefix of those frames is well framed under the node's id and ends inside a packet or at a boundary exactly where the frame counter says; all packets together are complete |
| ReadProp.HeaderFields | src/clementi/readProp.cpp:36-38 | the two range assignments of a header can be read back as id and address whatever the register held before |
| WriteProp.Run | src/clementi/writeProp.cpp:19-49 | the kernel stops at a packet boundary after exactly `packet_num` packets and leaves memory with the writes of what it consumed |
| WriteProp.ScanMeaning | src/clementi/writeProp.cpp:27-49 | the two-state scanner agrees, on any frames, with the reading of a stream as packets: same boundary, packet count and writes |
| WriteProp.StopsAtTheEnd | src/clementi/writeProp.cpp:36-49 | a packet boundary with all packets before it is the end of the stream |
| PropCopy.PartitionWrites | src/clementi/readProp.cpp:26-55 | depacketising what `readProp` sends for a range gives back the words of the range at their own addresses, once each and in order |
| PropCopy.NodeWrites | src/clementi/readProp.cpp:26-55 | the writes in the packets of several partitions sent one after the other out of one memory are exactly the words of these partitions |
| PropCopy.ConfigIsValid | src/clementi/readProp.cpp:26-55 | what the nodes send in a superstep is a valid input for the ring |
| PropExchange.HostCountIsExact | host/clementi/mpi_graph_dataflow.cpp:207-208 | the host's packet count is the number of packets in any complete update stream when each partition is scheduled on exactly one node |
| PropExchange.UpdateWritesValues | src/clementi/writeProp.cpp:27-49 | a complete update stream writes every address with the value of the node that owns it, and nothing else |
| PropExchange.AnyOrderCopies | src/clementi/writeProp.cpp:27-49 | applying a complete update stream, in whatever order origins are mixed, copies the owners' values and leaves the rest of memory |
| PropExchange.WritePropCanRun | host/clementi/mpi_graph_dataflow.cpp:219-221 | when the ring has stopped, every node's stream holds the host's packet count and only in-range writes, so `writeProp` neither waits for ever nor writes outside the buffer |
| PropExchange.ExchangeIsACopy | src/clementi/writeProp.cpp:19-49 | after any stopped run from reset, whatever `writeProp` consumed is the whole stream and the memory of every node is the same copy of all partitions |
| RingSupersteps.SuperstepIsACopy | src/clementi/writeProp.cpp:19-49 | in any superstep, at any moment, ring at rest or not: a `writeProp` that has counted the host's number of packets has used up all that has come, and its memory is the copy of all partitions that every node gets |
| RingSupersteps.NextCanBegin | host/clementi/mpi_host.cpp:81-93 | once every node's `writeProp` has stopped, whatever is still on the links, the ring is in a state from which the next superstep can begin; the first begins at reset |
| RingSupersteps.CountedIsAll | host/clementi/mpi_graph_dataflow.cpp:207-208 | a stream of nothing but this superstep's packets, in their senders' order, that has as many of them as the host counts holds all of them |
| RingSupersteps.SuperstepCompletes | host/clementi/mpi_graph_dataflow.cpp:259-262 | when the ring is at rest again every node's stream holds the host's number of packets and only in-range writes, so every `writeProp` stops |
| RingSupersteps.SuperstepEnds | src/clementi/globalTrans.cpp:26-99 | a superstep makes at most the moves that are left, N + 1 for each frame ever sent less those made before it, and is at rest exactly when it has made them |
| HostLoop.WholeBurstsIff | src/clementi/streamWrite.cpp:20-29 | the bursts of `streamWrite` cover its range if and only if the range is a multiple of 1024 vertices |
| HostLoop.SameNodeFrames | src/clementi/readProp.cpp:26-55 | what a node sends for some partitions depends on the memory of these partitions and nothing else |
| HostLoop.Node.AcceleratorExecute | host/clementi/mpi_graph_dataflow.cpp:201-315 | the whole loop, kernels taking turns in any order: while `streamWrite` fills one partition and `readProp` sends the one before out of the same memory, what is sent are the packets of every scheduled partition in its final state; the buffer that parity selects for gather and apply is as it was at the start, the partitions are computed from it, and the other buffer changes by the stores of `writeProp` alone; an even superstep reads `propBuffer` and stores to `propBufferNew`, an odd one the other way round |
| HostSupersteps.RoundComputes | host/clementi/mpi_graph_dataflow.cpp:201-315 | if all nodes read the same properties in a superstep, then, for every timing of kernels and ring, all nodes read in the next one the same properties, each word of them computed from those before |
| HostSupersteps.SuperstepsIterate | host/clementi/mpi_host.cpp:81-93 | n supersteps with barriers between them leave on every node, in the buffer that the parity of n selects, the initial properties taken n times through the whole-graph computation |
| CachePe.Cache.Access | src/src_cache/src_cache_access.cpp:37-46 | the banked read gives word `src` modulo the cache size of the words the banks hold |
| CachePe.Cache.Iterate | src/src_cache/src_cache_access.cpp:116-255 | one pass of the element's loop changes registers and banks, answers and passes lines on exactly as the transition function says |
| SourceCache.SafeRunsAreCorrect | src/src_cache/src_cache_access.cpp:116-255 | without hazards, in every run every answer sent so far is the memory word of its lookup, in order, with the end flag on the last |
| SourceCache.AdjacentLinesAreSafe | src/src_cache/src_cache_access.cpp:244 | lines that follow each other without gaps have no hazard for any sorted lookups |
| SourceCache.WaitingLookupOpensGuard | src/src_cache/src_cache_access.cpp:162-247 | a lookup that cannot hit yet leaves the refill guard open for the waiting line, or there is still a line to come |
| SourceCacheResults.EveryRunFinishes | src/src_cache/src_cache_access.cpp:116-255 | lookups and refills never block each other: with Q lookups and L lines, once 2Q + 2L rounds have passed, each of which offered a lookup in some pass and a line in some pass, the element has answered everything, consumed every line and left its loop |
| SourceCacheResults.HazardMakesARunWrong | src/src_cache/src_cache_access.cpp:244 | for any stream of lines that holds memory words, or zeros where no lookup needs them, every hazard has a timing under which the lookup gets the word of the wrong line |
| SourceCacheResults.CorrectIffSafe | src/src_cache/src_cache_access.cpp:116-255 | for any such stream all timings over all memories give right answers if and only if lookups and line addresses have no hazard |
| SourceCacheResults.GapBreaksTheCache | src/src_cache/src_cache_access.cpp:244 | the smallest case for one element by itself: lookups 0, 1, 65536 with lines at 0 and 65536 are not always answered right |
| MergeStage.Merger.Iterate | src/coalesce/coalesce.cpp:75-139 | one pass of a merge stage's loop, with either input empty or not, matches the stage's transition function |
| CoalesceChain.Filter.Iterate | src/coalesce/coalesce.cpp:154-184 | one pass of the filter's loop matches the filter's transition function |
| CoalesceChain.CoalescerOutput | src/coalesce/coalesce.cpp:214-227 | for every interleaving of the chain of merge stages and the filter, and every timing of their non-blocking reads, a network that has come to rest has emitted the row-by-row input without adjacent repeats |
| CoalesceChain.OutputBegins | src/coalesce/coalesce.cpp:214-227 | at every moment of every run what has been emitted is a beginning of that |
| CoalesceChain.CoalescerEnds | src/coalesce/coalesce.cpp:214-227 | every run comes to rest: it makes at most a fixed number of moves per row, and while it is not at rest some stage can move |
| Coalesce.DedupPieces | src/coalesce/coalesce.cpp:154-184 | dropping repeats early in a part of the stream does not change the outcome of dropping them at the end |
| Coalesce.DedupMembers | src/coalesce/coalesce.cpp:154-184 | dropping repeats loses no burst and invents none |
| Coalesce.DedupSorted | src/coalesce/coalesce.cpp:154-184 | of a sorted stream every burst is left once, in strictly increasing order |
| ReadEngine.Convert | src/src_cache/src_cache_read_engine.cpp:42-72 | commands up to the first end marker go through, followed by one flagged command that repeats the last index |
| ReadEngine.ReadLines | src/src_cache/src_cache_read_engine.cpp:80-127 | the lines sent for a command stream are the bursts it names, then two zero lines 16 and 32 above the last address sent, right behind it, the second flagged |
| ReadEngine.BurstsAreLines | src/src_cache/src_cache_read_engine.cpp:94-109 | increasing commands give aligned lines in strictly increasing order, each with the memory words of its address |
| ReadEngine.BurstsCover | src/src_cache/src_cache_read_engine.cpp:94-109 | every line of every commanded burst is sent |
| SourcePipeline.SrcBuffer | src/src_cache/src_cache_access.cpp:263-299 | the package buffer reverses every package, drops the terminator and flags the last real package |
| SourcePipeline.SrcDispatch | src/src_cache/src_cache_access.cpp:301-339 | each cache element gets its two words of every package in order, with the flag on its very last lookup |
| SourcePipeline.MergeOne | src/src_cache/src_cache_access.cpp:353-376 | a merged package has every element's two answers in their places and the end flag of the last element's second answer |
| SourcePipeline.SrcMerge | src/src_cache/src_cache_access.cpp:343-383 | merging stops exactly at the package with the flag and puts every answer of the eight elements in its place |
| SourcePipeline.LinesServe | src/src_cache/src_cache_read_engine.cpp:75-127 | for sorted ids the lines of their bursts meet everything a cache element demands of its input, for any of the ids it is given |
| SourcePipeline.CommandsAreBursts | src/coalesce/coalesce.cpp:214-227 | at any moment of any run of the coalescer, what it has sent up to the end marker is each burst of the ids, adjacent repeats dropped, or before the marker a beginning of it; a coalescer at rest has sent the marker |
| SourcePipeline.ElementReadsMemory | src/src_cache/src_cache_access.cpp:116-255 | dispatch, read engine and cache element together: without a hazard an element's share of sorted ids is answered with memory words in every run and every memory; hazard or not, it answers all of it and stops once both streams have been offered often enough |
| SourcePipeline.ElementReadsMemoryIff | src/src_cache/src_cache_access.cpp:244 | with the lines the engine sends for sorted packages, its two zero lines included, an element is right for every memory and timing if and only if its share of the ids has no hazard in these lines |
| SourcePipeline.DenseIdsAreSafe | src/src_cache/src_cache_access.cpp:176-255 | for sorted ids whose burst numbers never skip one, no share of the ids has a hazard in the lines the engine sends, its two zero lines included |
| SourcePipeline.GapBreaksAnElement | src/src_cache/src_cache_access.cpp:244 | the packages (0 fifteen times, 1) and (65536 sixteen times), with bursts of 32 lines, are sorted and deliverable, and element 0 is not always right for them |
| SourcePipeline.MergedPackagesAreWords | src/src_cache/src_cache_access.cpp:343-383 | with all eight elements right, word j of package k that comes out is the memory word of id j of package k that went in |
| EdgeStream.BurstRead | src/header/fpga_global_mem.h:165-217 | the two streams carry the sources and the destinations of all edges, sixteen to a token, then an end token |
| EdgeStream.SrcPropertyProcess | src/header/fpga_cache.h:12-53 | every destination token is paired with its own package of properties although it is read one token ahead; only the tuples of the last token are flagged |
| EdgeStream.PropProcessSelf | src/header/fpga_edge_prop.h:78-106 | the mapping stage keeps destinations and flags, maps values, and stops at the first flagged tuple |
| Decoder.PackedSelects | src/header/fpga_decoder.h:6-527 | packing a mask lists the selected lanes in ascending order with their count |
| Decoder.Decode | src/header/fpga_decoder.h:6-527 | for any valid bits the opcode is zero exactly when no lane is selected, and the decoded fields name the selected lanes in order |
| Shuffle.Screen | src/header/fpga_gather.h:59-125 | the filter word made of a tuple unpacks to exactly the updates this unit keeps, and a word that is held back has none |
| Shuffle.ShuffleEntry | src/header/fpga_gather.h:22-133 | an entry of the chain forwards everything and its filter words unpack to exactly the active updates for its unit, in order, up to the end flag |
| Shuffle.TupleFilter | src/header/fpga_filter.h:7-58 | unpacking gives the updates of the filter words in order as unflagged tokens, then one flagged token |
| DstProperty.ForwardingMasksTheLag | src/header/fpga_process_edge.h:210-216 | with up to the last four writes missing from the buffer, reading through the forwarding window gives the true contents at every address |
| DstProperty.DstUnit.Accumulate | src/header/fpga_process_edge.h:197-253 | one token updates the true contents as a sequential read-modify-write would, however many of the last four writes the read missed |
| DstProperty.DstUnit.Drain | src/header/fpga_process_edge.h:257-265 | the contents go out in order and the buffer is all zero afterwards |
| DstProperty.DstUnit.Process | src/header/fpga_process_edge.h:156-267 | a run sends, for every vertex index, the in-order gather over the tokens before the end flag that map to it, and ends as it began, so runs may follow each other |
| DstProperty.SequentialGathers | src/header/fpga_process_edge.h:197-253 | read-modify-writes on an all-zero buffer leave at every index the gather over the updates for that index |
| GatherKernel.ProcessEdgeWrite | src/header/fpga_process_edge.h:17-67 | the words of the sixteen units are interleaved into bursts in vertex order |
| GatherKernel.UnitGathers | src/clementi/gs.cpp:182-235 | what unit i gathers at its index is what the whole update list gathers for vertex 16 * index + i |
| GatherKernel.Gs | src/clementi/gs.cpp:160-243 | the whole kernel, given the property packages that come back: word v of the output is the in-order gather over exactly the real, active edges to v among all but the last sixteen, and the units end ready for the next run |
| GatherKernel.PaddingIsNeverMissed | src/header/fpga_cache.h:39-52 | dropping edges with negative destinations changes no word |
| GatherKernel.DropIsHarmlessIff | src/header/fpga_cache.h:39-52 | for sums of positive values, dropping the tail changes no word if and only if all of it is dummies or inactive |
| FileKernel.SaveAndGather | src/clementi/gs.cpp:160-243 | a list of blocks is saved and the kernel run on the words of the file: word v is the in-order gather over exactly the edges of the list whose source is active; no dummy counts and no edge is missed |
| FileKernel.GatherFile | src/clementi/gs.cpp:160-243 | the same for any well-formed edge file and any properties of its sources |
| CacheKernel.RunElement | src/src_cache/src_cache_access.cpp:116-255 | an element run with any leftovers in its memories on banks and registers answers its whole share, passes every line on to the next element and, without a hazard, answers with memory words |
| CacheKernel.ReadSources | src/src_cache/src_cache_access.cpp:263-383 | package buffer, dispatch, coalescer commands, read engine, the chain of eight elements and the merge: if no share has a hazard, word j of package k that comes back is the memory word of id j of package k that went out, for every timing |
| CacheKernel.ReadDenseSources | src/src_cache/src_cache_access.cpp:263-383 | the same under a condition on the ids alone: if no burst number is skipped from one id to the next, every word that comes back is the memory word of its id, for every timing |
| CacheKernel.GatherWithCache | src/clementi/gs.cpp:160-243 | the kernel with its source cache on an edge file without hazards: word v is the in-order gather, over exactly the real records of the file whose source is active, of what the property stage makes of the memory words of the sources |
| CacheKernel.GatherDense | src/clementi/gs.cpp:160-243 | the same for an edge file whose sources skip no burst number from one record to the next |
| RawSolver.FourIsTooMany | src/header/fpga_raw_solver.h:97-254 | four distinct vertices of one lane always include one at distance 32 or more from the last one sent |
| RawSolver.MergeConserves | src/header/fpga_raw_solver.h:97-254 | merging into a slot keeps what came in equal to what was sent plus what is held, for every vertex |
| RawSolver.InsertConserves | src/header/fpga_raw_solver.h:97-254 | a free slot always exists, and insertion keeps that balance |
| RawSolver.ReleaseIsGood | src/header/fpga_raw_solver.h:97-254 | a release sends at most one update, at distance 32 or more from the last, and leaves at most three slots in use |
| RawSolver.StepKeeps | src/header/fpga_raw_solver.h:97-254 | one update keeps slots distinct, spacing and the balance of every vertex |
| RawSolver.Solver.Iterate | src/header/fpga_raw_solver.h:97-254 | one pass over slots, flags and last vertex matches the step the lemmas are about; an update that meets its own vertex in a slot sends nothing, and any other sends nothing only if all slots in use are less than 32 away from the last vertex sent |
| RawSolver.Solver.Absorb | src/header/fpga_raw_solver.h:97-254 | up to the end of the stream, successive emissions are at least 32 apart and everything that came in is sent or held |
| RawSolver.Solver.Flush | src/header/fpga_raw_solver.h:97-254 | the flush sends the slots in use in ascending order, each behind two zero updates 32 above its vertex, and with them what every vertex still has to gather |
| RawSolver.Solver.Solve | src/header/fpga_raw_solver.h:71-262 | a whole run: successive updates are 32 apart before the flush, in the flush every held slot stands behind two zero updates 32 away, and every vertex gathers the same from the output as from the input |
| Partition.CutBySource | partition_schedule/input_aware.cpp:108-115 | block g holds exactly the edges of source group g, in their order, empty blocks included |
| Partition.EraseEmpty | partition_schedule/input_aware.cpp:116-117 | what is left is one non-empty block for every source group that has edges, in ascending order, with the same edges |
| Partition.PartsMakeBlock | partition_schedule/input_aware.cpp:128-138 | the four parts of a block follow each other to make it up, edge for edge |
| Partition.Part | partition_schedule/input_aware.cpp:135-136 | a part has a quarter of the block's edges, rounded down, and one more for as many parts as edges are left over, all of the block's source group |
| Partition.SplitBlock | partition_schedule/input_aware.cpp:128-138 | the loop with its start and end indices cuts the block into exactly those four parts |
| Partition.ProcessBlocks | partition_schedule/input_aware.cpp:106-146 | the result is the split, by old indices, of the first k blocks in descending order out of the blocks of the source groups, where k is their number times `alpha`, rounded up; whichever blocks are split, the result holds exactly the edges given and every block stays within one source group |
| Partition.SplitsTheLargestIff | partition_schedule/input_aware.cpp:125-142 | the loop hits the blocks it means if and only if their indices strictly fall in the order they are taken |
| Partition.PlacesTellBlocks | partition_schedule/input_aware.cpp:139-142 | while blocks are erased and parts appended, the bookkeeping of places names the original block that stands at each place |
| Partition.SecondLargestIsMissed | partition_schedule/input_aware.cpp:106-146 | for edges of three source groups with 5, 4 and 1 edges and `alpha` 0.4, where the two largest are meant, the result is the block of 4 whole and the parts of the other two |
| Greedy.GreedyWithin7Over4 | partition_schedule/input_aware.cpp:160-180 | blocks dealt to the least loaded list in any order exceed no other assignment's largest list by more than 3/4 |
| Greedy.GreedyWithin5Over4 | partition_schedule/input_aware.cpp:149-185 | in descending order by no more than 1/4 |
| Allocation.AllocateBlocksToLists | partition_schedule/input_aware.cpp:149-185 | the sorts and batches amount to dealing the blocks in descending order to the least loaded list; no block is lost or repeated |
| Allocation.AllocationWithin5Over4 | partition_schedule/input_aware.cpp:149-185 | no other way to spread the same blocks over four lists has a largest list below 4/5 of this one's |
| EdgeFile.SaveFile | partition_schedule/input_aware.cpp:216-239 | a file is a header that counts its records, the list's edges in source order, and dummies: a multiple of sixteen records, with exactly as many dummies as fill up the last sixteen and sixteen more |
| EdgeFile.FileIsGathered | partition_schedule/input_aware.cpp:216-239 | gathering a file up to the tokens the kernel counts gives, for every vertex, the gather over exactly its records |
| InputAware.PartitionInterval | partition_schedule/input_aware.cpp:323-338 | one interval from its edges and `alpha` to four files: of the source groups' blocks the largest, `alpha` of them rounded up, are cut in four by the loop's indices, and the blocks dealt out in descending order, each to a list with the fewest edges so far; each file is well formed and holds its list's records, together they are exactly the edges given, and none has more than 5/4 of the edges that the fullest list must have however the blocks are spread |
| GroupFiles.BinCount | partition_schedule/input_aware.py:94-102 | the counts give the edges of every source group up to the last that has any and add up to all edges |
| GroupFiles.SplitCounts | partition_schedule/input_aware.py:112-124 | the items are the counts in turn, those above the threshold given as four quarters; so they add up, count by count, to what was there |
| GroupFiles.SplitIsItems | partition_schedule/input_aware.py:107-124 | with the code's own threshold, the counts that become four items are exactly those above 0.8 times the largest and twice the mean; the four are in descending order, add up to the count and differ by at most one |
| GroupFiles.SlicesCover | partition_schedule/input_aware.py:127-128 | the slices between cumulative sums are together exactly the edges |
| GroupFiles.SliceIsOneGroup | partition_schedule/input_aware.py:112-128 | of edges sorted by source, every slice lies within the source group its count came from, split or not |
| GroupFiles.ProcessGroup | partition_schedule/input_aware.py:32-54 | the header is the group's sum rounded up, the records are the slices found, sorted, and dummies; yet the header is the number of records, a multiple of sixteen, and at least sixteen dummies trail the slices; an empty group ends in the index error |
| GroupFiles.PartitionGroups | partition_schedule/input_aware.py:94-207 | one partition from its edges to four results: counts above 0.8 of the largest and twice the mean become four quarters that differ by at most one, the items are dealt out in batches of four, largest first, and moved as the balancing loop does until it has no move left (or has made 100000), each result is a well-formed file with the edges of its items' slices, or the index error exactly when its sum is zero; together they hold every edge once, and no two sums differ by more than the largest item |
| Rebalance.BatchKeepsSpread | partition_schedule/input_aware.py:143-157 | giving a descending batch to groups in ascending order keeps any two sums within the largest item |
| Rebalance.AssignBatch | partition_schedule/input_aware.py:143-157 | of a batch, the k-th largest item goes to the group with the k-th smallest sum, and sums stay within the largest item of each other |
| Rebalance.Assign | partition_schedule/input_aware.py:136-157 | the items are assigned in batches of four in descending order, the rest at the end; every item is in exactly one group, sums are the sums of their items and lie within the largest item of each other |
| Rebalance.TryMove | partition_schedule/input_aware.py:163-191 | a round moves the last item of the first largest group to the first smallest if and only if the largest sum is above 1.1 times the average and the move lowers the spread; else it changes nothing |
| Rebalance.Balance | partition_schedule/input_aware.py:160-191 | the loop makes such moves one after another, each of which lowers the spread, and ends where none is left, unless all iterations were used |
| Scheduler.RangeSet.AddRange | partition_schedule/schedule.py:50-54 | an inverted window is refused, any other appended |
| Scheduler.RangeSet.HasIntersection | partition_schedule/schedule.py:56-60 | true exactly when some recorded window overlaps |
| Scheduler.TryTask | partition_schedule/schedule.py:169-194 | a task is placed, on the node free first, if and only if the window from its end to 2 later overlaps no recorded one (a dummy always is), and its window recorded; windows stay disjoint and node times level, and one refused shows that a window still lies ahead of that node |
| Scheduler.DummyCutsSlack | partition_schedule/schedule.py:196-198 | a dummy on the node free first shortens the total time nodes lag behind the last window |
| Scheduler.Pass | partition_schedule/schedule.py:166-194 | one pass over the queue keeps the account of every task, puts each in at a time when its window is free, and either places a task or proves that all windows were taken and the measure of the outer loop goes down |
| Scheduler.ShareOut | partition_schedule/schedule.py:149-157 | shared tasks are on every node, a share each, and all nodes are free at the same time |
| Scheduler.Schedule | partition_schedule/schedule.py:145-198 | the loop ends for every queue; every forward task is on exactly one node as often as given, put on the node free first when its window was free, and a dummy only when the windows of all waiting tasks were taken; no two apply windows overlap, and node times differ by at most the longest task and one apply |
| CsrGraph.Normalise | host/xgraph/graph.cpp:432-455 | every line becomes an edge with its smaller end first and the largest id is found |
| CsrGraph.PushKeepsLists | host/xgraph/graph.cpp:479-491 | appending the next edge in sorted order to both its lists keeps every list strictly increasing, although no list is ever sorted |
| CsrGraph.BuildLists | host/xgraph/graph.cpp:473-493 | the lists hold each non-loop edge of the input once on both its ends' lists |
| CsrGraph.Graph.LoadEdgeList | host/xgraph/graph.cpp:463-519 | the CSR arrays form a symmetric, loop-free graph with strictly increasing lists and v is a neighbour of u exactly when the input has that edge and u is not v |
| CsrGraph.Graph.FindNeighbor | host/xgraph/graph.h:185-198 | the binary search finds a vertex exactly when the list has it |
| CsrGraph.Graph.IsNeighbor | host/xgraph/graph.h:180-199 | looking in the shorter list answers the same question |
| CsrRelabel.TotalReordered | host/xgraph/graph.cpp:680-688 | renaming by a permutation keeps the number of adjacency entries, so the running offset ends at the number of edges |
| CsrEdgeData.SortIndex | host/xgraph/graph.cpp:729-741 | the index buffer ends as an order that sorts the distinct neighbours it points at |
| CsrEdgeData.SameIncreasing | host/xgraph/graph.cpp:739-760 | sorting the neighbours through the index and sorting them in place give the same list |
| CsrEdgeData.Relabel | host/xgraph/graph.cpp:639-762 | in place on the five arrays, for any lists in range that repeat no neighbour, directed or unsorted ones too: b is a neighbour of a exactly when the old names were neighbours, lists end sorted, offsets are the degree sums, each edge has the label and the weight it had under its old names, and a symmetric graph stays symmetric |
| TreeScan.UpSweep | host/xgraph/util/prefixsum/singlethread_tree.cc:11-16 | every element ends as the sum of the block the tree assigns to it |
| TreeScan.DownSweep | host/xgraph/util/prefixsum/singlethread_tree.cc:18-26 | from those block sums, with zero at the root, the descent makes the exclusive prefix sums |
| TreeScan.PrefixSumTree | host/xgraph/util/prefixsum/singlethread_tree.cc:8-27 | for power-of-two lengths the range is replaced by its exclusive prefix sums and nothing else changes |
| TreeScan.NextChunk | host/xgraph/util/prefixsum/singlethread_tree.cc:40-47 | one chunk, scanned with the total so far in the borrowed element before it, extends the prefix sums and restores what it borrowed |
| TreeScan.PrefixSumTreePartitioned | host/xgraph/util/prefixsum/singlethread_tree.cc:29-49 | chunks of two or more give the exclusive prefix sums of the whole array; chunks of one give zeros |
| TreeScan.ChunksOfOneIff | host/xgraph/util/prefixsum/singlethread_tree.cc:29-49 | zeros are the prefix sums if and only if all elements but the last are zero |
| TreeScanSimd.UpChain | host/xgraph/util/prefixsum/singlethread_tree.cc:56-77 | any chain of block writes carries the up-sweep on by that many blocks |
| TreeScanSimd.UpLanes | host/xgraph/util/prefixsum/singlethread_tree.cc:68-77 | sixteen blocks gathered, added and scattered at once are sixteen blocks written one after the other |
| TreeScanSimd.DownLanes | host/xgraph/util/prefixsum/singlethread_tree.cc:97-108 | the two scatters of the descent are sixteen block exchanges one after the other |
| TreeScanSimd.PrefixSumTreeSIMD | host/xgraph/util/prefixsum/singlethread_tree.cc:51-110 | the gather/scatter form gives the same exclusive prefix sums |
| Lanes.ScanSums | host/xgraph/util/prefixsum/helper_functions.h:12-22 | four shifted additions make each lane the sum of all lanes up to it |
| VerticalScan.VerticalHelper | host/xgraph/util/prefixsum/helper_functions.cc:8-23 | with lanes on sixteen chunks, in place or not, each chunk becomes its running sums on top of the lane's offset, and the lanes return the chunk totals |
| VerticalScan.AccumulateSimd | host/xgraph/util/prefixsum/helper_functions.cc:31-38 | sixteen side-by-side sums add up to the sum of the slice |
| VerticalScan.Vertical1 | host/xgraph/util/prefixsum/singlethread_avx512_vertical.cc:10-33 | chunk sums raised through gather and scatter are the inclusive prefix sums |
| VerticalScan.Vertical2 | host/xgraph/util/prefixsum/singlethread_avx512_vertical.cc:35-58 | so are chunk sums raised by the last element of the chunk before |
| VerticalScan.Vertical3 | host/xgraph/util/prefixsum/singlethread_avx512_vertical.cc:60-84 | so are chunk sums started from lane-scanned, masked chunk totals |
| VerticalScan.Vertical4 | host/xgraph/util/prefixsum/singlethread_avx512_vertical.cc:86-102 | so are chunk sums started from horizontally accumulated totals |
| VerticalScan.PrefixSumVertical | host/xgraph/util/prefixsum/singlethread_avx512_vertical.cc:104-133 | for any number of partitions and each of the four scans, the array becomes its inclusive prefix sums on top of the given offset |
| Barrier.StepKeepsInv | host/xgraph/util/prefixsum/barrier.h:16-26 | every access by any thread keeps the counter equal to the threads that have arrived, and the last arriver the only one between reset and release |
| Barrier.NobodyLeavesEarly | host/xgraph/util/prefixsum/barrier.h:16-26 | in every interleaving of n threads, none has returned from a call in which some thread has not arrived, and none is more than one call ahead |
| Barrier.SomeoneCanMove | host/xgraph/util/prefixsum/barrier.h:16-26 | some thread can always move |
| Barrier.MovesMakeRounds | host/xgraph/util/prefixsum/barrier.h:16-26 | more than n * (4r + 3) moves, however they are shared out, take every thread through r calls |
| Barrier.SpinlockBarrier.ArriveAndWait | host/xgraph/util/prefixsum/barrier.h:16-26 | a call by one thread, with anything the other threads do between its accesses: when it returns, every thread has arrived in at least as many calls as this one has returned from, no other is more than one behind, and every access in between was a move of the state machine; with four accesses or more it is still inside only if some thread has not arrived or the last to arrive is on its way to release the others |

## Left out

Weaker than the code, or with conditions of their own:

- ReadProp.Read: for `vertexNum` 0 the subtraction before the shift wraps in the original; the host only ever passes the partition size.
- WriteProp.Run: `packet_num` is at least 1; with 0 the do-while loop of the original would still wait for one packet.
- EdgeStream.SrcPropertyProcess: needs at least one token of edges before the end token; with an empty list the kernel waits for ever, and the edge files are never that short.
- GatherKernel.Gs: the stages are run one after the other; since the FIFOs between them block and each stage is a function of its input, that gives the same streams.
- GatherKernel.Gs: partition sizes are powers of two, so the index mask of the original is the remainder the model uses.
- Decoder.Decode: the 256 literal cases of the decoder are given by the rule they follow.
- DstProperty.DstUnit.Accumulate: of the pipeline's timing only this is modelled, that a buffer read may miss any number of the last four writes.
- SourcePipeline.ElementReadsMemory: one run at a time; in the original an element could take a lookup of the next run between its last answer and its last line.
- SourcePipeline.CommandsAreBursts: FIFO depths are ignored (a full FIFO only delays), and the engine's address mask, which has no effect below 2^31, is left out.
- Partition.ProcessBlocks: `alpha` is at most 1; above that the original reads past the end of its size list.
- Rebalance.Balance: the bound of 1.1 times the average is compared exactly, as `10 * max <= 11 * avg`.
- Scheduler.Schedule: times are exact reals, and the order in which the queue is shuffled is arbitrary.
- HostLoop.Node.AcceleratorExecute: the KERNEL_NUM copies of each property buffer, each with its own `gs` and `writeProp`, are one; what gather and apply make of a buffer is an arbitrary function of all of it and the address.
- HostLoop.Node.AcceleratorExecute: a schedule has at least one partition; with none the original would read past its end.
- CacheKernel.RunElement: each stream is offered again and again until the element is done; an element whose stream dries up for ever just waits.
- CacheKernel.GatherWithCache: the FIFOs between the kernel and its cache are unbounded; whether their depths could make the two wait for each other is not modelled.
- CacheKernel.GatherWithCache: no source may share the last burst of the 32-bit range with the end marker 0xFFFFFFFF, which the read engine would take for the end.
- CsrEdgeData.Relabel: vertex labels and vertex weights, which move like the degrees, are not part of this model.
- CsrGraph.Graph.LoadEdgeList: ids and offsets are unbounded, not 32 and 64 bits wide; edges arrive without data.
- TreeScan.PrefixSumTree: sums are exact reals, here and in the other scans; float rounding is not modelled.
- VerticalScan.Vertical2: aligned loads are loads; alignment faults are not modelled.
- Allocation.AllocateBlocksToLists: the library sorts are modelled by one insertion sort; where the library leaves the order of equal keys open, the theorems hold for the order that sort gives, and the bounds for any.

Not modelled:

- MPI, XRT, UDP and ARP set-up, loss on links, `clear_stream` and `empty_stream` polling: links are reliable FIFOs, leftovers are discarded.
- Apply functions (PageRank and others): the gather operation is abstract, with the laws stated where reordering needs them. Bit widths of values are not modelled.
- `src/global_apply`, `src/gather_scatter`, `src/single_gas`: near copies of the modelled kernels.
- `perfmodel` and the search for `alpha` in `input_aware.cpp`: the code does not guarantee that it converges.
- Curve fitting in `schedule.py`, and its lines 201-206, which compare a list with a number and never do anything.
- The binary searches of `host/xgraph/util/utility.h`, `sequential_partition`, `get_pid`, `is_member` and `is_sort`: easy members beside `FindNeighbor`.
- File formats, logging, plotting, command lines and the test programs.
