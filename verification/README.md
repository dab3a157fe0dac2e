# Drop, verified

Dafny models of the parts of the Drop profiling platform whose correctness does not show in any
single function, with proofs of what those parts promise together.

* **Task life cycle.** `TaskStatus` holds the transition tables and the audit trail, `PgStore` the
  C++ status update statement by statement under a row lock, `ApiServer` the Go one, `Queues` the
  two in-memory queues, and `Lifecycle` the whole protocol of apiserver, drop_server, agents and
  analysis scheduler, in which every message may be late or lost, every write may fail and all
  actors interleave. `LifecycleProofs` proves what holds in every run.
* **Folded stacks.** `FoldedText` is the line format with its C++ and Go readers and the writer,
  `Segments` and `ContinuousProfiler` follow samples from bursts through memory, segment files,
  upload and registration to the window query. `Separated` and `FlameText` add the Python and
  TypeScript readers, `FlameArena`, `FlameTree` and `FlameGraph` the flame-graph tree built and
  propagated in place, `TopN` the hottest functions.
* **HPROF.** `HprofFormat` and `HprofRecords` give the byte layout with encoder and decoder,
  `HeapSummary` the per-class accounting, `HeapReport` what the report promises, `HprofParser` the
  streaming parser and the code that fills the report.
* **Smaller state machines.** `Liveness` (heartbeat scan and agent audit log), `Failover` (server
  pool and failure counter), `MapsCache` and `SymbolBatch` (process maps cache, batched symbol
  resolution and folding of the eBPF loader), `Watchdog` (timeout protocol of a perf run).
* `Wrappers`, `Sequences`, `Sorting` and `Percentages` are small shared vocabularies.

Code that updates state in place is a class or a method with loops, proved against a function that
says what it computes; the theorems are about those functions or about every run of a step system.
`dafny verify dfyconfig.toml` checks everything.

Where the code turns out to differ from what one might expect of it, the model follows the code, and
lemmas show where it differs and exactly when the expected property holds:

* A task whose creation history insert fails is dispatched all the same (`CreationLost`); the history
  table tells a task's life if and only if that insert was not refused (`LifecycleProofs.AuditExactly`).
* A status update whose COMMIT answer is lost reports an error and has happened (`ErroredEffect`).
* C++ and Go read a count differently if and only if it is decorated, that is, holds a number among other
  characters, such as "-1" or "7x" (`CppReadsMore`, `CountsAgree`). JavaScript also reads "7x" as 7.
* A segment file cut short by a full disk gives its entries back if and only if nothing but its last line
  feed is missing (`CutFileExactly`).
* The `inclusive` column of `parse_topn` counts the stacks that *start* with a function, and falls back to
  the self count (`InclusiveDiffers`); `InclusiveExact` says when it is the inclusive count.
* A 32-bit array size can wrap when a heap dump record overruns its length (`WrapHappens`), and then only
  (`NoWrapAtZero`).
* The agent audit log and the online flag can part when one statement of a heartbeat or scan fails and its
  twin succeeds (`SplitBreaksLog`), and only then (`Liveness.AuditExactly`). The scan's second query, meant
  to find agents that came back, never finds one while the clock is monotone and the timeout fixed
  (`RecoveryIsByHeartbeat`).
* Overlapping misses on one pid put it into the eviction queue twice (`OverlapBreaksQueue`, `StoreRepeats`).
* A line of addr2line longer than the 512-byte buffer gives the next address a wrong name
  (`LongPlaceShiftsNames`); reader and tool stay in step if and only if both lines fit (`InStepExactly`).
* The watchdog of a perf run can signal the process group of a child that has been reaped
  (`LateSignalHappens`, `LateSignals`).

## Model

| member | source | states |
|---|---|---|
| `TaskStatus.GoAllowed` | apiserver/server/server.go:101-118 | the Go transition table is the C++ one |
| `TaskStatus.UpdateKeepsAudit` | drop/common/src/task_queue.cpp:77-156 | a status update with any arguments keeps every task's history a legal chain ending at its status |
| `TaskStatus.DoneIsAbsorbing` | drop/common/src/task_queue.cpp:259-267 | a history row entering DONE is the last one |
| `TaskStatus.DoneTrailSuffix` | drop/common/src/task_queue.cpp:259-267 | a finished task's last four rows enter PENDING, RUNNING, UPLOADING, DONE |
| `TaskStatus.TrailLengthBound` | drop/common/src/task_queue.cpp:259-267 | at most four history rows per attempt |
| `PgStore.Store.UpdateTaskStatus` | drop/common/src/task_queue.cpp:77-156 | a call alone is the atomic check-and-append, and nothing at all if not connected or a statement is refused; a COMMIT whose answer is lost has taken effect |
| `PgStore.LockInvStep` | drop/common/src/task_queue.cpp:77-156 | every statement of every call keeps the lock invariant: what a lock holder read and buffered agrees with the committed row |
| `PgStore.StepSimulates` | drop/common/src/task_queue.cpp:77-156 | one statement changes nothing committed or is exactly one atomic step |
| `PgStore.RowLockRefinement` | drop/common/src/task_queue.cpp:77-156 | any interleaving of statements, with Go updates and creations, equals running the recorded events atomically in order; each answered call appears exactly once with its answer, one that ended with an error at most once and only as applied, an unfinished one never |
| `PgStore.ErroredEffect` | drop/common/src/task_queue.cpp:147-152 | a call that ended with an error took effect if and only if its COMMIT did and only the answer was lost |
| `PgStore.TraceGrows` | drop/common/src/task_queue.cpp:77-156 | later statements only append to the serial order |
| `PgStore.RealTimeOrder` | drop/common/src/task_queue.cpp:77-156 | a call that ended, with an answer or an error, before another began precedes it in the serial order |
| `PgStore.NothingAfterTheEnd` | drop/common/src/task_queue.cpp:147-156 | a call that has ended adds nothing to the serial order |
| `PgStore.NoDeadlock` | drop/common/src/task_queue.cpp:90-99 | while a call is unfinished some call can execute its next statement |
| `PgStore.SerialKeepsAudit` | drop/common/src/task_queue.cpp:77-156 | the atomic machine keeps the audit table truthful |
| `PgStore.ConcurrentAudit` | drop/common/src/task_queue.cpp:77-156 | hence so does every interleaving of statements |
| `ApiServer.ApiStore.UpdateTaskStatus` | apiserver/server/server.go:40-92 | the Go update, with its default reason, is the same atomic step: all of it or nothing under any refused statement, all of it if only the answer of COMMIT is lost |
| `Queues.TaskQueue.constructor` | drop/common/src/task_queue.h:17-44 | a new queue is empty for every IP |
| `Queues.TaskQueue.Push` | drop/common/src/task_queue.h:19-23 | appends to the queue of one IP and leaves the others |
| `Queues.TaskQueue.Pop` | drop/common/src/task_queue.h:25-32 | takes the oldest task of the IP, nothing if there is none |
| `Queues.TaskQueue.Size` | drop/common/src/task_queue.h:34-38 | the length of the queue of an IP, 0 for an unknown one |
| `Queues.WorkerQueue.Offer` | drop/agent/main.cpp:356-374 | adds a task unless it is already queued, so no task is queued twice |
| `Queues.WorkerQueue.Take` | drop/agent/main.cpp:393-399 | takes the oldest queued task |
| `LifecycleProofs.StepOk` | drop/server/main.cpp:56-162 | every step of every actor keeps the whole invariant |
| `LifecycleProofs.Reachable` | drop/server/main.cpp:56-162 | the invariant holds in every reachable state |
| `LifecycleProofs.AuditTheorem` | apiserver/server/handler.go:139-147 | in every run the life of a task starts at creation, is chained by allowed edges, ends at the current status and has at most four rows per attempt; the history table holds that life, less its first row if the creation insert was refused, with a reason in every row |
| `LifecycleProofs.AuditExactly` | apiserver/server/handler.go:133-147 | the history table tells a legal life ending at the current status if and only if the creation insert was tried and not refused in the run |
| `LifecycleProofs.CreationLost` | apiserver/server/handler.go:139-150 | a refused creation insert leaves any task to be dispatched with an empty history |
| `LifecycleProofs.DeliveryTheorem` | drop/server/main.cpp:74-85 | in every run rows entering RUNNING <= pops <= pushes <= rows entering PENDING, the refused creation row counted in |
| `LifecycleProofs.QueueTheorem` | drop/server/main.cpp:145-162 | per IP popped then queued equals pushed, no cross-IP delivery, agents receive only popped tasks and queue none twice |
| `LifecycleProofs.DoneTheorem` | drop/server/main.cpp:104-139 | DONE implies the agent at the target IP received the task and reported an empty error |
| `LifecycleProofs.DoneForever` | apiserver/server/handler.go:250-275 | DONE stays DONE along every continuation of every run |
| `LifecycleProofs.AnalysisTheorem` | apiserver/server/analyzer.go:27-88 | a task is analysed at most once, only when DONE and with uploaded data |
| `LifecycleProofs.AnalysisVerdict` | apiserver/server/analyzer.go:48-79 | after the child is reaped and writes succeed the analysis status is SUCCESS exactly on exit 0, else FAILED |
| `FoldedText.LinesOfUnlines` | drop/common/src/continuous_profiler.cpp:133-142 | lines written with line feeds are read back as the same lines |
| `FoldedText.CppReadsMore` | drop/common/src/continuous_profiler.cpp:140-140 | C++ reads "-1" as 2^64 - 1 and "7x" as 7, both of which Go rejects |
| `FoldedText.CountsAgree` | drop/common/src/continuous_profiler.cpp:140-140 | C++ and Go read a text as a count alike if and only if it is not a 64-bit number decorated with blanks, a sign or trailing characters; a decorated one only C++ accepts |
| `FoldedText.EntriesAgree` | apiserver/server/handler.go:652-668 | they take a line alike if and only if it has no space or its count is not decorated |
| `FoldedText.EntryRoundTrip` | apiserver/server/handler.go:652-668 | a printed stack and count is read back by Go and C++, the empty stack included |
| `FoldedText.AddAllMeaning` | drop/common/src/continuous_profiler.cpp:133-142 | merging entries gives each stack its exact total modulo 2^64 and holds exactly the stacks mentioned |
| `FoldedText.Print` | drop/common/src/continuous_profiler.cpp:164-166 | the written text lists every stack of the map once with its count |
| `FoldedText.ScannedPrinted` | apiserver/server/handler.go:651-653 | Go's scanner returns all printed lines if and only if each fits its limit, otherwise those before the first that does not |
| `FoldedText.CppReadsFile` | drop/common/src/continuous_profiler.cpp:127-143 | C++ reads a written file back entry by entry |
| `FoldedText.GoReadsFile` | apiserver/server/handler.go:651-668 | the window query reads a prefix of a written file, all of it if and only if every line fits |
| `FoldedText.MapRoundTrip` | apiserver/server/handler.go:651-684 | printing a map and reading it back gives the map if and only if every line fits the scanner |
| `Segments.KeysAgree` | drop/common/src/continuous_profiler.cpp:194-239 | the key a segment is registered under is the key the upload stores it under, for any output directory |
| `Segments.PathsDiffer` | drop/common/src/continuous_profiler.cpp:152-155 | segments with different starts have different files and keys |
| `Segments.StartsIncrease` | drop/common/src/continuous_profiler.cpp:86-96 | segment starts grow by at least 300 s |
| `Segments.WindowIsCovered` | apiserver/server/handler.go:625-628 | a window query between first start and last end of a gapless registered run selects a row of that run |
| `Segments.CutFileExactly` | drop/common/src/continuous_profiler.cpp:158-168 | a file of which the disk kept only a first part gives its entries back if and only if nothing but the last line feed is missing |
| `Segments.DiskGrows` | drop/common/src/continuous_profiler.cpp:152-168 | writing a segment overwrites no earlier segment file |
| `Segments.MergeConserves` | drop/common/src/continuous_profiler.cpp:127-143 | merging keeps: samples merged = samples in memory + samples in files, per stack modulo 2^64 |
| `Segments.FlushConserves` | drop/common/src/continuous_profiler.cpp:145-168 | flushing keeps the same balance |
| `Segments.RunIsRead` | apiserver/server/handler.go:625-670 | a fully delivered run is read by the window query in full |
| `Segments.WindowConserves` | apiserver/server/handler.go:625-688 | a window over all delivered segments returns exactly the flushed totals modulo 2^64, all merged samples of stacks no longer in memory |
| `ContinuousProfiler.Api.Upload` | apiserver/server/handler.go:753-790 | status code for every case; the object is stored under task id, slash, file name without its leading slash, and the task key is set if it was empty |
| `ContinuousProfiler.Api.CreateSegment` | apiserver/server/handler.go:568-589 | status code for every case; one row is added unless the request is malformed or the insert fails |
| `ContinuousProfiler.Api.GetProfileWindow` | apiserver/server/handler.go:613-688 | status code for every case, and on 200 a listing of the sum of all readable overlapping segments |
| `ContinuousProfiler.Api.MergeWindow` | apiserver/server/handler.go:651-668 | the line loop adds exactly the entries Go reads |
| `ContinuousProfiler.MergeLines` | drop/common/src/continuous_profiler.cpp:133-142 | the line loop adds exactly the entries C++ reads |
| `ContinuousProfiler.Profiler.constructor` | drop/common/src/continuous_profiler.cpp:44-45 | a run starts empty and balanced at the current time |
| `ContinuousProfiler.Profiler.MergeCollapsed` | drop/common/src/continuous_profiler.cpp:127-143 | a burst file moves into memory and the balance holds |
| `ContinuousProfiler.Profiler.MergeFiles` | drop/common/src/continuous_profiler.cpp:74-83 | only existing files named like collapsed stacks are merged |
| `ContinuousProfiler.Profiler.Send` | drop/common/src/continuous_profiler.cpp:172-182 | upload, then registration of the stored key only if the upload was answered with 200; true exactly if both were |
| `ContinuousProfiler.Profiler.FlushSegment` | drop/common/src/continuous_profiler.cpp:145-192 | an opened file takes all of memory, whatever part of it the disk keeps; true exactly if opened, stored and registered, and only then listed as flushed; a failed open changes nothing |
| `ContinuousProfiler.Profiler.RunRound` | drop/common/src/continuous_profiler.cpp:47-101 | one turn merges the files of a successful burst, flushes exactly when 300 s have passed, restarts the segment then, and keeps balance and timeline |
| `ContinuousProfiler.Profiler.Record` | drop/common/src/continuous_profiler.cpp:23-110 | for every sequence of bursts, clocks and outcomes of files and requests each merged sample is in memory or was handed to a file; segments are gapless if all files open and the clock runs forward, and whole and registered if everything is answered |
| `ContinuousProfiler.RecordAndQuery` | drop/common/src/continuous_profiler.cpp:47-106 | run then query, for any input: the rows added are those of the segments, which account for every sample of the bursts; if every file and request succeeds, the stacks fit a scanner line and the window reaches over all flush times, the answer is 404 for no samples and otherwise lists exactly the stacks of the bursts, each with its total modulo 2^64 |
| `FlameText.StackOfFrames` | analysis/drop_analyzer/collapsed2tree.py:48-48 | joining the frames of a stack gives the stack |
| `FlameText.FramesOfStack` | analysis/drop_analyzer/collapsed2tree.py:48-48 | splitting joined frames gives the frames |
| `FlameText.ReadersAgree` | web_frontend/src/components/flamegraph/FlameGraph.tsx:27-33 | Python, TypeScript, Go and C++ read a printed line with canonical stack and positive count alike |
| `FlameArena.SiblingsDiffer` | analysis/drop_analyzer/collapsed2tree.py:52-64 | siblings have distinct names |
| `FlameArena.SubtotalBump` | analysis/drop_analyzer/collapsed2tree.py:66-66 | adding a count at a node adds it to the totals of exactly the nodes on its path |
| `FlameArena.DescendMeaning` | analysis/drop_analyzer/collapsed2tree.py:52-64 | walking down a stack ends at the node of its path and leaves names, values and totals of all old nodes |
| `FlameTree.TreeBuilder.constructor` | analysis/drop_analyzer/collapsed2tree.py:26-26 | the tree starts as a root with value 0 |
| `FlameTree.TreeBuilder.Find` | analysis/drop_analyzer/collapsed2tree.py:54-58 | the first child with a name, none if there is none |
| `FlameTree.TreeBuilder.Enter` | analysis/drop_analyzer/collapsed2tree.py:53-64 | one step down, appending the child if it is missing |
| `FlameTree.TreeBuilder.Insert` | analysis/drop_analyzer/collapsed2tree.py:52-66 | the in-place insertion of a line builds the nodes of the specified insertion, and its values while host arithmetic is exact |
| `FlameTree.TreeBuilder.Propagate` | analysis/drop_analyzer/collapsed2tree.py:73-81 | changes values only; while host arithmetic is exact it overwrites exactly those below a node, each with its total before propagation, and returns the node's |
| `FlameTree.BuildMeaning` | analysis/drop_analyzer/collapsed2tree.py:28-66 | before propagation a node's value counts the stacks equal to its path and its total those starting with it; every stack has a node and every node is on a stack |
| `FlameTree.SelfOfPropagated` | analysis/drop_analyzer/collapsed2tree.py:73-81 | subtracting the children's values undoes propagation |
| `FlameGraph.BuildTree` | web_frontend/src/components/flamegraph/FlameGraph.tsx:26-60 | line loop plus propagation build the nodes, names and children of the specified tree whatever the arithmetic, and its values when that is exact up to the total |
| `FlameGraph.CollapsedToTree` | analysis/drop_analyzer/collapsed2tree.py:16-70 | for every list of lines and any max_depth the Python builder returns the specified tree of the accepted, truncated stacks |
| `FlameGraph.CollapsedToTreeTs` | web_frontend/src/components/flamegraph/FlameGraph.tsx:22-63 | the TypeScript builder returns the shape of the specified tree for every list of lines, and the tree itself for totals up to 2^53 |
| `FlameGraph.TrieCorrectness` | analysis/drop_analyzer/collapsed2tree.py:26-81 | each node's value is the sum of the counts of exactly the samples whose stack starts with its path; distinct paths and sibling names; no missing and no superfluous node |
| `FlameGraph.SameTree` | web_frontend/src/components/flamegraph/FlameGraph.tsx:22-63 | on printed entries with canonical stacks within the depth limit both builders give the same nodes, sibling order included |
| `FlameGraph.ReadBack` | analysis/drop_analyzer/collapsed2tree.py:73-81 | a node's value less its children's is the merged count of the stack its path joins to; the root keeps nothing |
| `FlameGraph.StackHasNode` | analysis/drop_analyzer/collapsed2tree.py:48-66 | every merged stack is the joined path of some node |
| `TopN.ParseTopN` | analysis/drop_analyzer/hotmethod_analyzer.py:147-187 | the rows are the first top_n of the ranking with the inclusive and percentage columns as computed, none if the counts sum to 0 |
| `TopN.RankingMeaning` | analysis/drop_analyzer/hotmethod_analyzer.py:179-179 | the ranking lists every function stacks end with once, by self count, ties in order of first appearance |
| `TopN.OmittedWeighLess` | analysis/drop_analyzer/hotmethod_analyzer.py:179-179 | no omitted function outweighs a listed one |
| `TopN.InclusiveExact` | analysis/drop_analyzer/hotmethod_analyzer.py:171-180 | for positive counts the inclusive column never exceeds the total over the stacks with the function, and equals it if and only if all of those start with it, or, when none starts with it, all end with it |
| `TopN.InclusiveDiffers` | analysis/drop_analyzer/hotmethod_analyzer.py:171-180 | for stacks f;g and g;f the column of f is 1 while f is on two stacks |
| `TopN.PercentagesSumTo100` | analysis/drop_analyzer/hotmethod_analyzer.py:181-186 | over all functions the percentages, before rounding, sum to 100 |
| `TopN.SelfCountIsSelfValue` | analysis/drop_analyzer/hotmethod_analyzer.py:166-170 | a function's self count is the sum of the self values of its nodes in the flame-graph tree |
| `Sorting.StableSortMeaning` | analysis/drop_analyzer/hotmethod_analyzer.py:179-179 | the sort is a descending permutation that keeps the order of equal keys |
| `Sorting.SortSlice` | analysis/java_heap_analyzer/main.go:477-479 | some descending permutation |
| `HprofFormat.ReadOfWritten` | analysis/java_heap_analyzer/main.go:427-432 | a big-endian integer that fits is read back |
| `HprofFormat.WrittenOfRead` | analysis/java_heap_analyzer/main.go:427-432 | the bytes of a big-endian integer are determined by it |
| `HprofFormat.SubRoundTrip` | analysis/java_heap_analyzer/main.go:309-407 | decoding an encoded sub-record gives it back and leaves the rest, for any id size |
| `HprofFormat.SubInverse` | analysis/java_heap_analyzer/main.go:225-307 | whatever decodes is well formed and the bytes consumed are exactly its encoding |
| `HprofRecords.DumpMeaning` | analysis/java_heap_analyzer/main.go:225-282 | bytes read equal length minus remaining, they encode the sub-records read, and the effect is theirs |
| `HprofRecords.DumpRoundTrip` | analysis/java_heap_analyzer/main.go:225-282 | parsing encoded sub-records ends at exactly 0 remaining with their effect |
| `HprofRecords.WrapOnlyAtTheEnd` | analysis/java_heap_analyzer/main.go:357-372 | a 32-bit size product wraps only in the last sub-record read, and then the loop ends below 0 |
| `HprofRecords.NoWrapAtZero` | analysis/java_heap_analyzer/main.go:390-406 | if the loop ends at exactly 0 every recorded size is the number of bytes skipped |
| `HprofRecords.WrapHappens` | analysis/java_heap_analyzer/main.go:357-372 | an array of 2^30 references in an overrunning record is recorded with size 0 |
| `HprofRecords.JavaNameOf` | analysis/java_heap_analyzer/main.go:211-215 | a descriptor and the bare name it wraps are shown alike, slashes as dots |
| `HprofRecords.RecordRoundTrip` | analysis/java_heap_analyzer/main.go:138-180 | one encoded record is parsed to its effect and the rest is left |
| `HprofRecords.RecordsRoundTrip` | analysis/java_heap_analyzer/main.go:138-183 | so is any sequence of records, every byte consumed |
| `HprofRecords.FileRoundTrip` | analysis/java_heap_analyzer/main.go:103-282 | for id size 4 or 8 parsing any encoded file succeeds, consumes every byte and leaves the fold of its records |
| `HprofRecords.FileAccounted` | analysis/java_heap_analyzer/main.go:103-183 | after any parse, failed ones included, per-class counts and sizes and the totals agree with the objects |
| `HeapSummary.AddObjectAccounted` | analysis/java_heap_analyzer/main.go:409-425 | adding an object keeps the accounting of every class |
| `HeapSummary.PermutedAccounted` | analysis/java_heap_analyzer/main.go:486-488 | reordering the objects keeps it |
| `HeapSummary.ClassesSumToTotals` | analysis/java_heap_analyzer/main.go:409-425 | in any order the classes' counts and sizes sum to the totals |
| `HprofParser.Reader.ReadFull` | analysis/java_heap_analyzer/main.go:108-110 | all bytes asked for, or failure with the input used up |
| `HprofParser.Parser.constructor` | analysis/java_heap_analyzer/main.go:95-100 | a new parser is empty |
| `HprofParser.Parser.AddObject` | analysis/java_heap_analyzer/main.go:409-425 | the in-place update is the one whose accounting is proved |
| `HprofParser.Parser.ParseInstanceDump` | analysis/java_heap_analyzer/main.go:309-340 | the object of the decoded sub-record, with consumed equal to the bytes read |
| `HprofParser.Parser.ParseObjArrayDump` | analysis/java_heap_analyzer/main.go:342-373 | the same for reference arrays, size modulo 2^32 |
| `HprofParser.Parser.ParsePrimArrayDump` | analysis/java_heap_analyzer/main.go:375-407 | the same for primitive arrays |
| `HprofParser.Parser.ParseSub` | analysis/java_heap_analyzer/main.go:234-279 | one sub-record after its tag has the effect of the decoded one, none on failure |
| `HprofParser.Parser.ParseHeapDump` | analysis/java_heap_analyzer/main.go:225-282 | the length-counted loop ends and computes the specified result, on failure too |
| `HprofParser.Parser.ParseString` | analysis/java_heap_analyzer/main.go:187-196 | records the string, fails on short input, panics on a record shorter than an id |
| `HprofParser.Parser.ParseLoadClass` | analysis/java_heap_analyzer/main.go:198-223 | records the class under its converted name, with the same failure cases |
| `HprofParser.Parser.ParseTagged` | analysis/java_heap_analyzer/main.go:148-180 | one record after its tag |
| `HprofParser.Parser.ParseByTag` | analysis/java_heap_analyzer/main.go:161-180 | the body of a record by its tag |
| `HprofParser.Parser.ParseRecordLoop` | analysis/java_heap_analyzer/main.go:138-183 | records until the input ends |
| `HprofParser.Parser.ReadHeader` | analysis/java_heap_analyzer/main.go:104-115 | the bytes before the first zero, failure if there is none |
| `HprofParser.Parser.Parse` | analysis/java_heap_analyzer/main.go:103-183 | the streaming parser computes the specified result of the whole file, error and panic cases included |
| `HprofParser.Parser.ListSuspects` | analysis/java_heap_analyzer/main.go:464-476 | one suspect per class |
| `HprofParser.Parser.FirstBig` | analysis/java_heap_analyzer/main.go:489-503 | despite the early break, the first min(topN, number of objects of at least 1 MiB) objects by size |
| `HprofParser.Parser.Analyze` | analysis/java_heap_analyzer/main.go:458-512 | objects are permuted to descending size and stay accounted; the listed classes start a full ranking by size with their share of the total, the listed objects are the largest of at least 1 MiB |
| `HeapReport.OmittedClassWeighsLess` | analysis/java_heap_analyzer/main.go:477-482 | no omitted class outweighs a listed one, and min(topN, number of classes) are listed |
| `HeapReport.OmittedObjectIsSmaller` | analysis/java_heap_analyzer/main.go:486-503 | no object left out of the big ones is larger than a listed one |
| `HeapReport.ClassPercentagesSumTo100` | analysis/java_heap_analyzer/main.go:464-476 | the shares of all classes sum to 100 |
| `HprofParser.AnalyzeFile` | analysis/java_heap_analyzer/main.go:514-542 | from file to report: success exactly when the file parses, and then totals, class count, top classes with shares and largest objects are those of the parsed heap |
| `Liveness.AgentStore.constructor` | drop/common/src/task_queue.cpp:11-20 | no agents at first |
| `Liveness.AgentStore.UpsertAgent` | drop/common/src/task_queue.cpp:28-75 | a heartbeat inserts or refreshes one row and logs a comeback exactly if it read the row as offline, each statement succeeding or failing on its own |
| `Liveness.AgentStore.Mark` | drop/common/src/task_queue.cpp:175-197 | the loop over a query's rows sets the flag and logs once per row, in whatever order, each statement succeeding or failing on its own |
| `Liveness.AgentStore.ScanAgentHeartbeats` | drop/common/src/task_queue.cpp:158-230 | both queries and loops have the specified effect on every agent under any failures; the number of stale rows found is returned |
| `Liveness.StepKeepsLife` | drop/common/src/task_queue.cpp:58-75 | a heartbeat or scan keeps an agent's log and flag in agreement if and only if its statements take effect together |
| `Liveness.SplitBreaksLog` | drop/common/src/task_queue.cpp:58-75 | two heartbeats whose upsert fails leave an offline agent logged online twice |
| `Liveness.AuditAlternates` | drop/common/src/task_queue.cpp:28-75 | in every run whose steps take effect together each log alternates offline, online from offline, and the flag is online exactly if the log is empty or ends online |
| `Liveness.AuditExactly` | drop/common/src/task_queue.cpp:28-230 | all logs and flags agree all along a run if and only if every step took effect together |
| `Liveness.OneRowPerAddress` | drop/common/src/task_queue.cpp:48-57 | addresses stay unique |
| `Liveness.ScanDecides` | drop/common/src/task_queue.cpp:158-230 | right after a scan whose queries and row update succeed online holds exactly if the last heartbeat is within the timeout, up to the duration of the scan |
| `Liveness.OfflineIsStale` | drop/common/src/task_queue.cpp:162-165 | with a monotone clock and one timeout, under any failures, an offline agent is stale until its next heartbeat |
| `Liveness.RecoveryIsByHeartbeat` | drop/common/src/task_queue.cpp:199-204 | then the scan's second query finds nothing |
| `Failover.AddressesRoundTrip` | drop/common/src/server_pool.h:23-34 | well-formed addresses joined with commas are read back |
| `Failover.ServerPool.Init` | drop/common/src/server_pool.h:23-34 | the pool holds the trimmed non-empty pieces, or the default address, and uses the first |
| `Failover.ServerPool.Connect` | drop/common/src/server_pool.h:36-42 | the index is taken modulo the number of servers and the channel is to that server |
| `Failover.ServerPool.Failover` | drop/common/src/server_pool.h:45-54 | on to the next server, round robin |
| `Failover.Heartbeat.constructor` | drop/agent/main.cpp:295-297 | no failures, not registered |
| `Failover.Heartbeat.Turn` | drop/agent/main.cpp:299-353 | one heartbeat updates counter, server and registration as specified |
| `Failover.Heartbeat.Loop` | drop/agent/main.cpp:299-353 | so does any sequence of heartbeats |
| `Failover.FailoverArithmetic` | drop/agent/main.cpp:319-333 | for two servers or more failovers are the sum of floor(L/3) over maximal failure runs and the index is failovers modulo n |
| `Failover.SingleServer` | drop/agent/main.cpp:325-325 | a single server is never left |
| `Failover.DuringOutage` | drop/agent/main.cpp:319-333 | after k failures in a row the index has moved by k/3 |
| `Failover.EveryServerThreeTimes` | drop/agent/main.cpp:319-333 | 3n failures from the start of a run try each server exactly three times, in one stretch |
| `Failover.RegisteredMeans` | drop/agent/main.cpp:339-353 | registered exactly if registration succeeded since the last failover |
| `Failover.RegisteredWithCurrent` | drop/agent/main.cpp:339-353 | and that was with the current server |
| `MapsCache.UserMaps.constructor` | drop/common/src/ebpf_loader.cpp:205-208 | the cache starts empty |
| `MapsCache.UserMaps.Lookup` | drop/common/src/ebpf_loader.cpp:211-216 | the cached maps of a pid, if any |
| `MapsCache.UserMaps.Insert` | drop/common/src/ebpf_loader.cpp:241-250 | evicts the oldest entry when full, then adds at the end of the queue |
| `MapsCache.UserMaps.ReadUserMaps` | drop/common/src/ebpf_loader.cpp:210-251 | a call returns what a direct read returns and keeps the cache sound |
| `MapsCache.InsertOk` | drop/common/src/ebpf_loader.cpp:241-250 | an insertion of an uncached pid keeps queue, bound and contents |
| `MapsCache.CacheInvariant` | drop/common/src/ebpf_loader.cpp:205-251 | in every run of any threads without overlapping misses on a pid the queue lists exactly the cached pids once, at most 256, each with its maps |
| `MapsCache.StoreRepeats` | drop/common/src/ebpf_loader.cpp:241-250 | a store keeps the queue duplicate-free exactly if the pid was not cached meanwhile or is itself evicted |
| `MapsCache.OverlapBreaksQueue` | drop/common/src/ebpf_loader.cpp:210-251 | two overlapping misses leave a pid in the queue twice |
| `SymbolBatch.ReadTwoLines` | drop/common/src/ebpf_loader.cpp:299-310 | reading two lines per address keeps in step with the tool's output when both fit the buffer, and the name chosen is the address's |
| `SymbolBatch.InStepExactly` | drop/common/src/ebpf_loader.cpp:299-310 | two reads consume exactly one address's lines if and only if both lines fit the buffer |
| `SymbolBatch.LongPlaceShiftsNames` | drop/common/src/ebpf_loader.cpp:299-310 | after an address with a long second line the next one is named by the rest of that line |
| `SymbolBatch.ResolveChunk` | drop/common/src/ebpf_loader.cpp:273-323 | one run adds exactly the sites of its chunk: each under its own name if the lines fit, each under its fallback if the pipe fails, some name otherwise |
| `SymbolBatch.ResolvePath` | drop/common/src/ebpf_loader.cpp:270-325 | chunks of at most 512 together resolve every offset of a binary, for any tool output |
| `SymbolBatch.GroupByPath` | drop/common/src/ebpf_loader.cpp:261-265 | grouping by binary keeps exactly the sites asked for |
| `SymbolBatch.BatchResolve` | drop/common/src/ebpf_loader.cpp:256-327 | exactly the sites asked for, each under the name it gets alone when every pipe opens and the lines fit |
| `SymbolBatch.ResolveUserFrame` | drop/common/src/ebpf_loader.cpp:330-352 | first matching region, then the batch result, then the fallback |
| `SymbolBatch.CollectSites` | drop/common/src/ebpf_loader.cpp:421-431 | the site of every mapped frame of a stack is collected |
| `SymbolBatch.Collect` | drop/common/src/ebpf_loader.cpp:403-435 | so it is for every key read |
| `SymbolBatch.FrameNames` | drop/common/src/ebpf_loader.cpp:467-470 | the user frames of a stack, outermost first, named by the batch |
| `SymbolBatch.FoldKey` | drop/common/src/ebpf_loader.cpp:442-481 | the folded stack of a key, kernel frames then user frames, with every user frame named by the batch |
| `SymbolBatch.Fold` | drop/common/src/ebpf_loader.cpp:403-484 | for any tool output and pipes the result sums the keys' counts under their stacks as named by a batch that answers exactly the sites of the stacks |
| `SymbolBatch.FoldedIsDirect` | drop/common/src/ebpf_loader.cpp:256-484 | if every pipe opens and every line fits, that is the sum with each frame resolved alone |
| `SymbolBatch.TextIsJoin` | drop/common/src/ebpf_loader.cpp:446-481 | a folded stack is its kernel frames then user frames, outermost first, joined by semicolons, or "[unknown]" if there are none, whoever names them |
| `SymbolBatch.FramesAreNamed` | drop/common/src/ebpf_loader.cpp:330-352 | every frame gets a non-empty name, alone or from the batch |
| `SymbolBatch.FoldedSum` | drop/common/src/ebpf_loader.cpp:439-484 | written counts sum to the counts added |
| `SymbolBatch.Poll` | drop/common/src/ebpf_loader.cpp:371-496 | the output lists the folded map, and its counts sum to those of the keys read, for any tool output |
| `Watchdog.Reachable` | drop/common/src/perf_profiler.cpp:136-230 | the protocol invariant holds in every interleaving |
| `Watchdog.SignalOrder` | drop/common/src/perf_profiler.cpp:145-164 | SIGTERM not before the deadline, SIGKILL at least 5 s later, each only while child_done is unset |
| `Watchdog.SuccessMeans` | drop/common/src/perf_profiler.cpp:166-230 | a true result implies no signal was ever sent and the child exited with code 0 |
| `Watchdog.InTimeMeansNoSignal` | drop/common/src/perf_profiler.cpp:145-164 | a child whose end is noticed before the deadline is never signalled |
| `Watchdog.LateSignals` | drop/common/src/perf_profiler.cpp:145-177 | the process group of a reaped child is signalled if and only if a wait of the watchdog runs out after waitpid has returned the child |
| `Watchdog.LateSignalHappens` | drop/common/src/perf_profiler.cpp:145-177 | a child that exits with 0 can be reaped and then signalled, and the run counts as timed out |
| `Watchdog.DogIsBounded` | drop/common/src/perf_profiler.cpp:145-164 | the watchdog takes at most three steps in any run |
| `Watchdog.DogNeverStuck` | drop/common/src/perf_profiler.cpp:145-164 | an unfinished watchdog can always go on once its wait is over, at once if the flag is up |
| `Watchdog.EveryScheduleReturns` | drop/common/src/perf_profiler.cpp:145-177 | in every schedule the two threads take at most six steps, and from the end of waitpid until the call returns one of them always has a next step |

## Left out

- FlameGraph.CollapsedToTreeTs: says nothing about the values beyond 2^53, where JavaScript additions round and depend on their order.
- FlameText.ReadersAgree: covers stacks no reader trims; each reader's own treatment of other lines is modelled but not compared.
- Liveness.AgentStore.ScanAgentHeartbeats: assumes that no other writer runs between the statements of a scan or upsert; each statement may fail.
- PgStore.ConcurrentAudit: takes the creation of a task as one step; its two inserts are apart in the life cycle model.
- PgStore gives each concurrent call its own connection. drop_server shares a single one among its handler threads (drop/server/main.cpp:37); statements of two calls mixed on one connection are not modelled.
- The Go status update is one atomic step; whether its query option takes a row lock is up to GORM.
- gRPC, HTTP, curl, libpq, GORM, MinIO, fork and exec are steps that succeed, fail or are lost.
- Restart of drop_server, which loses its queues, and deletion of tasks.
- Columns that no modelled operation reads: begin and end times, user, parameters, host name, version.
- HeartbeatTracker, the in-memory twin of last_hb, which StatAgent reads only without a database (drop/server/main.cpp:200-208).
- The window query's ORDER BY: segments are merged in the order they were registered, which gives the same sums.
- The time of a flush is taken from the caller; two profilers of one task at the same time are not considered. A write to an opened segment file may lose its end, but no bytes from the middle.
- Splitting a text into lines in Python and TypeScript: the builders take the list of lines. Python integers beyond ASCII digits.
- Rounding of percentages, and JSON or gzip output of the trees, top-N lists and heap reports.
- The contents of HPROF roots and class dumps, skipped as blocks of the code's fixed sizes; 64-bit overflow of the heap totals; the string table is part of the parser although the program keeps it in a global.
- Parsing of /proc maps and kallsyms lines and the kernel symbol lookup: taken as functions of the pid and of the address.
- The kernel side of the eBPF program and changes of its maps during a poll: the keys and counts read are the input.
- The standard error excerpt and the error messages of a perf run; fairness of the thread scheduler.
- async-profiler and script runner, which use the same watchdog protocol.
- The cron scheduler, natural-language parsing, rules, the LLM client, the web pages, groups, users and middleware.
