# A verified model of the element library

This project models the logic of a collection of GStreamer elements and tracers, and proves the properties their
code relies on. `dafny verify dfyconfig.toml` checks all of it.

- **Delimiter framing** (`Framing`, `LineParse`, `LineEnc`): the bounded line parser with its remembered search
  position, against one leftmost split of the whole stream, and the encoder as its inverse.
- **Durable transport** (`SharedQueue`, `DurableSink`, `ResumableSource`): the S2 sink and source as transition
  systems over their threads. The classes are the lock sections; their methods refine the named functions that the
  transition systems apply. `CompleteDrain` and `ClaimErrorPost` each set one flag, which the systems set directly.
- **Detection decoding** (`Floats`, `RowHeads`, `GridDecode`, `Nms`): softmax distances, the grid of centre points,
  and suppression in place.
- **Tensors** (`ModelInfo`, `TensorValues`, `ShapeConstraints`, `Packing`): exact sizes, little-endian values, shape
  constraints and the packing of video frames.
- **Metrics** (`Cursor`, `SeriesRegistry`, `SeriesExport`, `Interval`, `QueueCache`, `QueueRefresh`): capped series with
  retirement, wrapping cursors, interval histograms, and the cache of queue names with its dirty flag.
- **Sampling workers** (`EmissionGate`, `OcrFrames`, `Sampler`): the emission gate under concurrent and re-entrant
  stops, frame selection, row packing and batch accumulation.

A transition system here is a function `Step` over an `Action` type with an `Enabled` predicate. A theorem about every
interleaving is a lemma about every sequence of enabled actions.

What the proofs assume of the surroundings:

- The S2 service is an append-only log. It grows in submission order; `flush` and `close` succeed only once everything
  submitted before is acknowledged; a read session returns the records of its range in order.
- The parser base class passes all accumulated bytes, calls at least with the minimum frame size or while draining,
  and removes what a frame consumed. The source base class does not run `unlock_stop` while `create` runs;
  `ResumableSource.OverlapLosesARecord` shows why. A metadata error ends the run of the source.
- Clocks, deadlines, spurious wakeups, remote failures and the answers of the StatsD client are free choices.
- The snapshot of the live series that a StatsD export cycle takes is one step. It may fall anywhere.
- Floating-point values are exact reals, with the sign of zero for the total order of section 5.10 of IEEE 754-2008.
  `exp` is any function with exp(0) = 1 that is never negative, so underflow to zero is covered.
- A machine word has 64 bits. The runtime reports one dimension symbol for each input axis.

Where the code falls short, the exact condition is proved:

- `LineEnc.RoundTripIff`: encoded records survive parsing if and only if the delimiter does not overlap itself within
  the record bound.
- `SeriesExport.SnapshotInsideHandOverIff`: the code lets an export cycle take its snapshot between the removal of a
  pad and its hand-over, and then forgets the cursor of that series before its last export. Some run then counts
  pushes twice if and only if that export may not start from zero; below 2^63 pushes, if and only if something was
  accepted for the series before. `SeriesExport.SeriesConservation` covers every run without such a start.
- `Framing.RecoverableIff`: the exact point from which no continuation can open with a legal record. The look-ahead
  error never comes before it, but may come later.

Progress is proved as possibility: `DurableSink.DrainCanSucceed`, `ResumableSource.EverythingCanBeDelivered`,
`SeriesExport.EverySeriesCanCatchUp`, `QueueCache.RefreshRepairs` and `EmissionGate.JobIsAnswered` show that the work
can be done from every state they cover. They state that such a run exists, not that the scheduler takes it.

## Model

| member | source | states |
|---|---|---|
| Framing.CheckedLookahead | text/lines/src/lineparse/imp.rs:94-112 | the look-ahead is the record bound plus the delimiter and fits 32 bits; an empty delimiter, one beyond 32 bits and a sum beyond 32 bits are each reported, in that order |
| Framing.FindDelimiter | text/lines/src/lineparse/imp.rs:49-60 | searching from a remembered offset finds the leftmost delimiter of all the bytes, as long as none starts before the offset |
| Framing.ScanOffsetSurvivesMore | text/lines/src/lineparse/imp.rs:136-159 | the remembered offset stays safe when any bytes are appended: no delimiter of the longer buffer starts before it |
| Framing.OverlongStaysOverlong | text/lines/src/lineparse/imp.rs:179-183 | once the look-ahead error fires, every continuation of the stream fails as a whole |
| Framing.RecoverableIff | text/lines/src/lineparse/imp.rs:179-183 | exactly when a buffer without a delimiter can still open with a legal record: the bound is not passed, or a delimiter is under way that started within it |
| Framing.FragmentationIndependence | text/lines/src/lineparse/imp.rs:114-187 | feeding any chunks one after the other and finishing gives the records and the verdict of one leftmost split of the whole stream |
| Framing.PiecesJoin | text/lines/src/lineparse/imp.rs:49-60 | cutting a stream at every leftmost delimiter gives pieces without delimiters that, joined by delimiters, are the stream |
| Framing.SplitMeans | text/lines/src/lineparse/imp.rs:114-187 | the split is that cut: the records up to the first one beyond the bound, nothing after a last delimiter, and well formed exactly when none is beyond it |
| Framing.OmitEmptyFilters | text/lines/src/lineparse/imp.rs:148-150 | omitting empty records removes exactly those and changes nothing else |
| LineParse.DecideBounds | text/lines/src/lineparse/imp.rs:139-185 | a finished or dropped frame consumes at least one byte and no more than there are; waiting means nothing is decidable yet |
| LineParse.DecideRejects | text/lines/src/lineparse/imp.rs:114-187 | the reason of a rejection: a delimiter but none within the bound; or none, and the stream has ended beyond the bound, or the look-ahead is used up |
| LineParse.DecideAdvances | text/lines/src/lineparse/imp.rs:114-187 | one decision on a stream that goes on is one step of the incremental meaning |
| LineParse.DecideSplits | text/lines/src/lineparse/imp.rs:161-177 | one decision while draining is one step of the whole-stream split |
| LineParse.LineParser.constructor | text/lines/src/lineparse/imp.rs:379-392 | a started parser has an empty buffer, no search position and nothing undecided |
| LineParse.LineParser.ResetScan | text/lines/src/lineparse/imp.rs:394-398 | forgetting the search position changes no record and no buffered byte |
| LineParse.LineParser.DecideFrame | text/lines/src/lineparse/imp.rs:114-187 | the decision from the remembered offset is the decision of a fresh search, and the new offset is safe |
| LineParse.LineParser.HandleFrame | text/lines/src/lineparse/imp.rs:428-492 | one call delivers, drops, waits or fails as decided and keeps the search offset and the minimum frame size safe |
| LineParse.LineParser.FinishFrame | text/lines/src/lineparse/imp.rs:453-480 | after a finished or dropped frame the search starts afresh at the next byte |
| LineParse.LineParser.Chain | text/lines/src/lineparse/imp.rs:410-493 | the base-class loop over one upstream buffer refines the incremental meaning of that buffer |
| LineParse.LineParser.Drain | text/lines/src/lineparse/imp.rs:161-177 | the base-class loop at end of stream gives the final records and verdict |
| LineParse.ParseStream | text/lines/src/lineparse/imp.rs:379-493 | a whole run over any chunks gives the records of the concatenation up to the first overlong one, without the empty ones if those are omitted, and its verdict; or the start-up error |
| LineEnc.Encode | text/lines/src/lineenc/imp.rs:199-211 | the encoded record ends with the delimiter, begins with the record, and has the delimiter added exactly when it was missing |
| LineEnc.EncodeIsIdempotent | text/lines/src/lineenc/imp.rs:199-211 | encoding twice is encoding once |
| LineEnc.Transform | text/lines/src/lineenc/imp.rs:176-250 | the front of the output buffer holds the encoded record, the rest is untouched; it fails exactly for an empty delimiter, an overflow or a short buffer |
| LineEnc.TransformSizeSuffices | text/lines/src/lineenc/imp.rs:162-174 | a size is announced unless it overflows; a buffer of that size is never too small, and exactly filled unless the record came terminated |
| LineEnc.EncodeOfParse | text/lines/src/lineenc/imp.rs:199-248 | re-encoding all parsed records gives back the stream, plus one delimiter exactly when the stream ended inside a record |
| LineEnc.ParseOfEncode | text/lines/src/lineenc/imp.rs:199-248 | parsing encoded records gives them back when each fits and holds no delimiter and the delimiter does not overlap itself within the bound |
| LineEnc.OverlapLosesRecords | text/lines/src/lineenc/imp.rs:199-248 | for every self-overlap within the bound there are two legal records that do not survive |
| LineEnc.RoundTripIff | text/lines/src/lineenc/imp.rs:199-248 | all legal record lists survive encoding and parsing if and only if the delimiter has no self-overlap within the record bound |
| SharedQueue.Shared.constructor | net/s2/src/s2sink/imp.rs:84-101 | a new queue is empty, accepting, not flushing and has no failure |
| SharedQueue.Shared.TryEnqueue | net/s2/src/s2sink/imp.rs:161-181 | one pass of the enqueue loop: rejected while flushing, else with the stored failure, else when closed; else queued below capacity, and told to wait with nothing changed at capacity |
| SharedQueue.Shared.TakeNext | net/s2/src/s2sink/imp.rs:659-672 | the worker takes the oldest record, and a drain request only when there is no record |
| SharedQueue.Shared.RequestDrain | net/s2/src/s2sink/imp.rs:261-267 | a drain joins the request that is queued or queues a new one with an unused completion flag |
| SharedQueue.Shared.CompleteDrain | net/s2/src/s2sink/imp.rs:137-142 | completion sets exactly the flag of the request |
| SharedQueue.Shared.CheckDrain | net/s2/src/s2sink/imp.rs:268-300 | the verdict of a drain: failure first, then complete, then interrupted, else wait |
| SharedQueue.Shared.CloseQueue | net/s2/src/s2sink/imp.rs:109-113 | closing stops acceptance and nothing else |
| SharedQueue.Shared.RecordFailure | net/s2/src/s2sink/imp.rs:115-125 | the first failure is kept and acceptance stops |
| SharedQueue.Shared.FinishWorker | net/s2/src/s2sink/imp.rs:131-135 | the end of the worker is recorded and nothing else |
| SharedQueue.Shared.MarkFlushing | net/s2/src/s2sink/imp.rs:631-647 | flushing is set or cleared and nothing else |
| SharedQueue.Shared.ClaimErrorPost | net/s2/src/s2sink/imp.rs:127-129 | only the first claimer may post the element error |
| SharedQueue.SectionsAreSticky | net/s2/src/s2sink/imp.rs:103-187 | no section re-opens acceptance, replaces the first failure or takes back the end of the worker |
| DurableSink.InitialInv | net/s2/src/s2sink/imp.rs:505-527 | the invariant holds when the worker is spawned |
| DurableSink.AcceptedExactlyWhenOpen | net/s2/src/s2sink/imp.rs:156-187 | a render call adds its record exactly when the sink is not flushing, not failed, not closed and has room; it sleeps exactly when only room is missing |
| DurableSink.NothingAcceptedInFlush | net/s2/src/s2sink/imp.rs:631-647 | nothing is accepted from the start of a flush until its end, whatever else runs |
| DurableSink.NothingAcceptedAfterEnd | net/s2/src/s2sink/imp.rs:103-125 | nothing is accepted once the queue was closed, a failure stored or a drain timed out, whatever flushes come and go |
| DurableSink.OpenAfterFlush | net/s2/src/s2sink/imp.rs:631-647 | after a flush the sink accepts again unless it was closed or has failed |
| DurableSink.AttemptKeeps | net/s2/src/s2sink/imp.rs:156-187 | an enqueue attempt keeps the invariant, whether it queues, is rejected or goes to sleep |
| DurableSink.TakeKeeps | net/s2/src/s2sink/imp.rs:658-691 | the worker section keeps the invariant, with the one wakeup it sends |
| DurableSink.CompleteDrainKeepsData | net/s2/src/s2sink/imp.rs:691-704 | completing a flush keeps every promise the waiting drains rely on |
| DurableSink.DrainCheckKeeps | net/s2/src/s2sink/imp.rs:268-300 | a drain that returns, times out or waits keeps the invariant |
| DurableSink.DrainWaitsOnlyForTheWorker | net/s2/src/s2sink/imp.rs:268-300 | a drain goes on waiting exactly while the worker lives, has not completed it and has not failed, and no flush has begun |
| DurableSink.FailuresAreReported | net/s2/src/s2sink/imp.rs:252-301 | one element error is posted when the worker fails or a drain at end of stream fails or times out, and by no other step |
| DurableSink.FailureIsTheFirst | net/s2/src/s2sink/imp.rs:115-125 | the failure kept is the worker's error or the timeout, whichever is stored first |
| DurableSink.FailureKeeps | net/s2/src/s2sink/imp.rs:514-526 | the worker epilogue after a failure keeps the invariant |
| DurableSink.ElementStepInv | net/s2/src/s2sink/imp.rs:536-560 | stop, flush start and flush stop keep the invariant |
| DurableSink.StepInv | net/s2/src/s2sink/imp.rs:156-739 | every step of every thread keeps the whole invariant |
| DurableSink.Conservation | net/s2/src/s2sink/imp.rs:156-187 | in every run accepted records are the submitted ones, at most one in hand, and the queue within its capacity, in order; the log is a prefix of them |
| DurableSink.EosBarrier | net/s2/src/s2sink/imp.rs:252-301 | when a drain returns Complete, everything accepted before it took the lock is in the log, confirmed by a flush begun after it or by the final close |
| DurableSink.DrainIsABarrier | net/s2/src/s2sink/imp.rs:252-301 | over any run: whatever had been accepted by the time a drain began is in the log when it returns Complete |
| DurableSink.DrainCanSucceed | net/s2/src/s2sink/imp.rs:650-739 | in every reachable state with a worker neither failed nor aborted, steps of the worker and the service alone bring a waiting drain to its completion |
| DurableSink.DurableForever | net/s2/src/s2sink/imp.rs:103-187 | what is in the log stays there, acceptance never returns, and the first failure is never replaced, whatever follows |
| DurableSink.NoLostWakeups | net/s2/src/s2sink/imp.rs:650-739 | a parked worker with work to see, a sleeping enqueuer that need not wait and a waiting drain with a verdict each have a wakeup stored or under way; at most one error is posted |
| DurableSink.RequestsAreKept | net/s2/src/s2sink/imp.rs:261-267 | a waiting drain request is queued, in the worker, done, or the worker is ending |
| ResumableSource.VisibleIsFilteredRange | net/s2/src/s2src/imp.rs:549-556 | the filtered range is increasing and holds exactly the sequence numbers of the range that pass the command-record filter |
| ResumableSource.SourceControl.BeginFlush | net/s2/src/s2src/imp.rs:348-357 | flushing cancels the current reader |
| ResumableSource.SourceControl.EndFlush | net/s2/src/s2src/imp.rs:359-394 | flush stop installs a fresh, uncancelled reader at the record after the last delivered one, or fails when that number does not exist |
| ResumableSource.SourceControl.TakeReceiver | net/s2/src/s2src/imp.rs:402-418 | the receiver is taken once, with the identity of its reader; flushing and a missing receiver are errors that change nothing |
| ResumableSource.SourceControl.ReturnReceiver | net/s2/src/s2src/imp.rs:431-452 | the receiver goes back into its worker, and the call learns whether a flush or a cancelled reader interrupted it |
| ResumableSource.SourceControl.CommitDeliveredCursor | net/s2/src/s2src/imp.rs:499-514 | the cursor moves only for an uncancelled current reader outside a flush |
| ResumableSource.InitialInv | net/s2/src/s2src/imp.rs:516-579 | the invariant holds for a freshly spawned reader |
| ResumableSource.StartIsConfigured | net/s2/src/s2src/imp.rs:516-526 | where each start mode begins: the first record; the configured number, clamped at the tail; the first record not older than the configured time; or so many before the tail |
| ResumableSource.TailCheckIff | net/s2/src/s2src/imp.rs:626-640 | the first reader fails its tail check exactly for an unclamped number past the tail or a time later than the last record |
| ResumableSource.OpenKeeps | net/s2/src/s2src/imp.rs:598-603 | opening the session at a checked start keeps the invariant |
| ResumableSource.PushKeeps | net/s2/src/s2src/imp.rs:604-623 | sending the next record keeps the channel an unbroken continuation of what was delivered |
| ResumableSource.CommitExtendsRun | net/s2/src/s2src/imp.rs:475-495 | the committed record is the next visible one after the delivered run |
| ResumableSource.FlushStopKeeps | net/s2/src/s2src/imp.rs:359-394 | replacing the reader keeps the invariant when no create is running |
| ResumableSource.FlushStopRestarts | net/s2/src/s2src/imp.rs:359-394 | the end of a flush installs a reader with an empty channel that starts after the last record delivered, or as configured, and resumes a stream that had ended |
| ResumableSource.CreateEndsIff | net/s2/src/s2src/imp.rs:431-471 | a received record is committed unless the call was interrupted; an uninterrupted call without one ends the stream until the next restart |
| ResumableSource.StepInv | net/s2/src/s2src/imp.rs:348-640 | every step that respects the base-class rule keeps the invariant |
| ResumableSource.ExactlyOnce | net/s2/src/s2src/imp.rs:398-526 | over any number of flushes and restarts the delivered records are, in order and once each, exactly those of the log that pass the command-record filter, from where the start mode says for the log at the opening of the session up to the last one delivered |
| ResumableSource.EverythingCanBeDelivered | net/s2/src/s2src/imp.rs:348-640 | from every reachable state between calls, after a flush every record from the start of the run to the end of the log can still be delivered, unless the first session would fail its tail check or the last number has no successor |
| ResumableSource.ResumePassesTailCheck | net/s2/src/s2src/imp.rs:626-640 | a resumed reader never fails its own tail check |
| ResumableSource.OverlapLosesARecord | net/s2/src/s2src/imp.rs:359-394 | a concrete run in which flush stop overlaps create loses a record, so the base-class rule is needed |
| Nms.IouIsASimilarity | analytics/nanodet/src/nanodettensordec/nms.rs:44-56 | on proper boxes the measure is symmetric, between 0 and 1, and 1 for equal boxes |
| Nms.IouCountsCells | analytics/nanodet/src/nanodettensordec/nms.rs:44-56 | on whole corners the measure is the number of unit cells in both boxes over the number in either |
| Nms.SortedIsHighestFirst | analytics/nanodet/src/nanodettensordec/nms.rs:36-42 | the order is: higher scores first, a positive zero before a negative one, then lower classes, then lower ordinals |
| Nms.LimitIsPrefix | analytics/nanodet/src/nanodettensordec/nms.rs:29-33 | a smaller limit gives a prefix of the result of a larger one |
| Nms.GreedyIsTheMask | analytics/nanodet/src/nanodettensordec/nms.rs:12-33 | the kept detections are the unique set in which a detection is out exactly when a kept one before it suppresses it |
| Nms.MaskExists | analytics/nanodet/src/nanodettensordec/nms.rs:12-33 | such a set exists for every ranking |
| Nms.SuppressionMeaning | analytics/nanodet/src/nanodettensordec/nms.rs:5-34 | for every ranking of the input the result is drawn from it, highest scores first, within the limit and pairwise within the threshold per class; every other input is overlapped beyond it by a kept one of its class that scores no less, or was cut off by a full result that scores no less |
| Nms.DroppedIsSuppressed | analytics/nanodet/src/nanodettensordec/nms.rs:16-23 | a detection ranked before the cut is dropped exactly when a kept one of its class, with at least its score, overlaps it beyond the threshold |
| Nms.KeptScoreNoLess | analytics/nanodet/src/nanodettensordec/nms.rs:10-33 | whatever was kept before an element of the ranking scores at least as high |
| Nms.RankingUnique | analytics/nanodet/src/nanodettensordec/nms.rs:36-42 | distinct ordinals leave only one ranking |
| Nms.OrderIndependence | analytics/nanodet/src/nanodettensordec/nms.rs:10-33 | with distinct ordinals the result depends only on which candidates there are |
| Nms.InsertLast | analytics/nanodet/src/nanodettensordec/nms.rs:10-10 | inserting the next element keeps the prefix sorted and a permutation |
| Nms.SortUnstable | analytics/nanodet/src/nanodettensordec/nms.rs:10-10 | the array becomes a permutation of itself with the highest scores first, with no promise about ties |
| Nms.HasConflict | analytics/nanodet/src/nanodettensordec/nms.rs:16-21 | some kept detection of the class overlaps the candidate beyond the threshold |
| Nms.GreedyStep | analytics/nanodet/src/nanodettensordec/nms.rs:15-31 | below the limit, one more candidate is kept exactly when no kept one suppresses it |
| Nms.GreedyFull | analytics/nanodet/src/nanodettensordec/nms.rs:29-31 | at the limit the rest of the ranking changes nothing |
| Nms.Suppress | analytics/nanodet/src/nanodettensordec/nms.rs:5-34 | in place, the front of the array becomes the greedy result of a ranking of the input, with all the properties above |
| RowHeads.ExpectationInRange | analytics/nanodet/src/nanodettensordec/decode.rs:105-117 | the softmax denominator is at least one and the expectation lies between the first and the last bin |
| RowHeads.ExpectationIsSoftmaxMean | analytics/nanodet/src/nanodettensordec/decode.rs:105-117 | for an exponential, lowering the logits by their maximum changes nothing: the result is the plain softmax mean |
| RowHeads.ExpectationBalances | analytics/nanodet/src/nanodettensordec/decode.rs:105-117 | the expectation is the one point from which the weighted deviations of the bin indices cancel |
| RowHeads.FiniteMaximum | analytics/nanodet/src/nanodettensordec/decode.rs:96-103 | the first pass finds the maximum, or nothing exactly when there is no bin or one is not finite |
| RowHeads.DistributionExpectation | analytics/nanodet/src/nanodettensordec/decode.rs:92-118 | the loop computes that expectation, and nothing exactly for no bins or a non-finite one |
| RowHeads.BestIsLastMaximum | analytics/nanodet/src/nanodettensordec/decode.rs:120-132 | the scan settles on the last of the greatest scores |
| RowHeads.LastMaximumUnique | analytics/nanodet/src/nanodettensordec/decode.rs:120-132 | there is only one last greatest score |
| RowHeads.BestClass | analytics/nanodet/src/nanodettensordec/decode.rs:120-132 | the loop returns a greatest score with the last class that has it, and nothing exactly for no scores or a non-finite one |
| GridDecode.ContractForDims | analytics/nanodet/src/nanodettensordec/decode.rs:74-79 | a contract is found exactly for its own dimensions, which no other has |
| GridDecode.GridIsLeastCover | analytics/nanodet/src/nanodettensordec/decode.rs:204-204 | the grid side is the least number of strides that cover the input |
| GridDecode.CellHasOrdinal | analytics/nanodet/src/nanodettensordec/decode.rs:203-216 | every row number below the total is the number of a cell |
| GridDecode.OrdinalHasCell | analytics/nanodet/src/nanodettensordec/decode.rs:203-216 | every cell has a row number below the total, and no two cells share one |
| GridDecode.OrdinalsFollowTheGrid | analytics/nanodet/src/nanodettensordec/decode.rs:203-216 | rows are numbered level by level, row by row, from left to right |
| GridDecode.CentersByName | analytics/nanodet/src/nanodettensordec/decode.rs:36-39 | the centre of a cell is its grid origin for NanoDet-Plus and half a stride further for NanoDet-m |
| GridDecode.BoxCoversWhatTheSidesReach | analytics/nanodet/src/nanodettensordec/decode.rs:246-255 | a point of the input is in the box exactly when each side, in strides from the centre, reaches it |
| GridDecode.ReadRow | analytics/nanodet/src/nanodettensordec/decode.rs:218-271 | the loop body decodes a row to its detection or skips it |
| GridDecode.DecodedRowMeaning | analytics/nanodet/src/nanodettensordec/decode.rs:218-271 | a decoded row has the last of its greatest class scores, at least the threshold, and the box of the row |
| GridDecode.BoxIsWhatItReaches | analytics/nanodet/src/nanodettensordec/decode.rs:227-255 | the box covers exactly what the four sides reach from the centre of the cell |
| GridDecode.DistanceReadsItsBins | analytics/nanodet/src/nanodettensordec/decode.rs:229-243 | each side is the mean of its own eight values of the row |
| GridDecode.RowDecodesIff | analytics/nanodet/src/nanodettensordec/decode.rs:218-257 | a row decodes exactly when all its values are finite, some class reaches the threshold, and what it reaches has an area inside the input |
| GridDecode.DecodedAtIsItsRow | analytics/nanodet/src/nanodettensordec/decode.rs:196-216 | the row of a cell is the 112 values at its number |
| GridDecode.DecodedIsWellPlaced | analytics/nanodet/src/nanodettensordec/decode.rs:246-271 | a detection has a class below 80, a score that reached the threshold, its row as ordinal, and a box of positive size inside the input |
| GridDecode.CandidatesAreTheDecodedRows | analytics/nanodet/src/nanodettensordec/decode.rs:203-274 | the candidates are exactly the rows that decode, each once, with strictly increasing ordinals |
| GridDecode.Visit | analytics/nanodet/src/nanodettensordec/decode.rs:212-271 | one visit appends the detection of its row, or stops at an ordinal beyond 16 bits |
| GridDecode.TraverseRow | analytics/nanodet/src/nanodettensordec/decode.rs:211-272 | the innermost loop decodes one row of cells in order |
| GridDecode.TraverseLevel | analytics/nanodet/src/nanodettensordec/decode.rs:204-273 | the loop over a level decodes all its cells in order |
| GridDecode.Traverse | analytics/nanodet/src/nanodettensordec/decode.rs:190-281 | the nested loops leave the candidates of all rows, or the candidates before the row that stopped them and the reason |
| GridDecode.DecodeValues | analytics/nanodet/src/nanodettensordec/decode.rs:172-285 | on success the buffer holds the suppression of the candidates, with all its properties, the same for whichever ranking the unstable sort chose |
| GridDecode.Fits | analytics/nanodet/src/nanodettensordec/decode.rs:41-71 | on each supported contract the grid has as many cells as the model has rows, and the ordinals fit 16 bits |
| GridDecode.SupportedContractsDecode | analytics/nanodet/src/nanodettensordec/decode.rs:259-281 | on a supported contract the traversal cannot fail |
| Packing.DestinationInside | analytics/inference-common/src/preprocess.rs:100-109 | every component lands inside the tensor |
| Packing.DestinationInjective | analytics/inference-common/src/preprocess.rs:100-105 | no two components land on the same cell |
| Packing.DestinationOnto | analytics/inference-common/src/preprocess.rs:100-105 | every cell of the tensor is the destination of a component |
| Packing.SourceInside | analytics/inference-common/src/preprocess.rs:155-170 | every component is read within the frame and the visible part of its row, never from an alpha byte |
| Packing.PackedPixel | analytics/inference-common/src/preprocess.rs:19-53 | for every format, layout and channel order, which byte of a pixel decides which cell of the tensor |
| Packing.PackingSeesOnlyComponents | analytics/inference-common/src/preprocess.rs:36-53 | frames with the same colour components pack into the same tensor, whatever their strides, padding, alpha and byte orders |
| Packing.PlanarIsTransposed | analytics/inference-common/src/preprocess.rs:100-105 | the planar tensor is the transpose of the interleaved one |
| Packing.OrderReversesPlanes | analytics/inference-common/src/preprocess.rs:19-26 | the other channel order reverses the planes |
| Packing.CopyPixels | analytics/inference-common/src/preprocess.rs:147-174 | the loops write every cell of the tensor, each with the converted component of its pixel; the only failure is a missing range |
| Packing.ScalingIsLinear | analytics/inference-common/src/preprocess.rs:125-138 | the range of a colour is stretched in equal steps from its first bound at 0 to its second at 255; a colour without a range has no value |
| Packing.RefusalIff | analytics/inference-common/src/preprocess.rs:65-145 | exactly when a frame is refused, and that the reason given is true of it |
| Packing.Preprocess | analytics/inference-common/src/preprocess.rs:56-145 | the first failing check decides the error, the size and index checks of the loops never fail, and the result is the packed frame, unchanged bytes or scaled values |
| ModelInfo.CheckedProductIsExact | analytics/inference-common/src/model_info.rs:154-157 | the fold of checked multiplications succeeds exactly when the true product fits |
| ModelInfo.ValidateDimsIff | analytics/inference-common/src/model_info.rs:126-158 | validation succeeds exactly when the axes match, each is in 1 to 2^31-1, and the unbounded byte product fits an allocation; it returns that product |
| ModelInfo.SmallestShapeValidates | analytics/inference-common/src/model_info.rs:357-362 | the smallest shape of an accepted declaration validates |
| ModelInfo.DeclarationIff | analytics/inference-common/src/model_info.rs:357-362 | a declaration is accepted exactly when some concrete shape validates against it |
| ModelInfo.LayoutCoversTensor | analytics/inference-common/src/model_info.rs:533-552 | an image layout accounts for every value of its tensor |
| ModelInfo.LayoutIff | analytics/inference-common/src/model_info.rs:533-552 | a layout is found exactly for unit axes followed by 3, height, width or by height, width, 3, unless both could be meant |
| TensorValues.LeRoundTrip | analytics/inference-common/src/engine.rs:55-70 | reading little-endian bytes and writing them again gives the bytes |
| TensorValues.LeInverse | analytics/ort-inference/src/engine.rs:478-490 | writing a number and reading it again gives the number |
| TensorValues.LeAppend | analytics/inference-common/src/engine.rs:55-70 | each further byte weighs 256 times as much as the one before it |
| TensorValues.RangesByName | analytics/inference-common/src/engine.rs:55-70 | the range of each scalar type |
| TensorValues.BitsRoundTrip | analytics/inference-common/src/engine.rs:55-70 | a signed value is the one in range that differs from its bits by nothing or by the whole width |
| TensorValues.DecodeRoundTrip | analytics/inference-common/src/engine.rs:44-85 | decoding succeeds exactly for a valid shape with its number of bytes, never meets a partial element, yields one value for each element, and encoding them gives the bytes |
| TensorValues.DecodedItems | analytics/inference-common/src/engine.rs:44-85 | each decoded value is that of its own bytes, in order |
| TensorValues.EncodeRoundTrip | analytics/ort-inference/src/engine.rs:478-516 | encoded values that fill a valid shape decode to the same values |
| ShapeConstraints.ValidateInputShape | analytics/ort-inference/src/engine.rs:273-313 | an input is accepted exactly when some assignment extends the symbol table and fits it, and the new table is the least such assignment |
| ShapeConstraints.ValidateInputs | analytics/ort-inference/src/engine.rs:187-194 | an input set is accepted exactly when ranks and fixed axes fit and any two axes with one symbol have one size |
| ShapeConstraints.PairwiseIsEnough | analytics/ort-inference/src/engine.rs:273-313 | agreement of any two axes with one symbol is the same as one assignment of sizes to symbols that fits every axis |
| ShapeConstraints.SharedSymbolsAgree | analytics/ort-inference/src/engine.rs:302-309 | axes with the same symbol have the same size anywhere in an accepted set |
| ShapeConstraints.ConstrainOutput | analytics/ort-inference/src/engine.rs:413-418 | in place, each declared wildcard becomes the axis of the model |
| ShapeConstraints.ValidateTypeIff | analytics/ort-inference/src/engine.rs:424-460 | a model output fits a declaration exactly when it is a tensor of its type and rank with supported axes and no axis is fixed differently on both sides; the error names the first that fails |
| ShapeConstraints.ConstraintIsAMeet | analytics/ort-inference/src/engine.rs:396-421 | the constrained description validates exactly the shapes that fit both the declaration and the fixed axes of the model, at the same byte size |
| ShapeConstraints.ReturnedOutputIff | analytics/ort-inference/src/engine.rs:208-222 | a returned output is accepted exactly when its type and axes satisfy both and its bytes fit an allocation |
| Cursor.CounterCursor.constructor | utils/statsd/src/worker.rs:495-525 | a cursor starts at zero and inactive |
| Cursor.CounterCursor.Export | utils/statsd/src/worker.rs:495-525 | one export offers the capped difference, or nothing, and moves the cursor only if it was accepted |
| Cursor.ExportRun | utils/statsd/src/worker.rs:495-525 | a cursor over any counter values and answers has the accepted total that the theorems below are about |
| Cursor.CursorIsAcceptedTotal | utils/statsd/src/worker.rs:511-521 | under any counter values and answers the cursor is its start plus the accepted amounts modulo 2^64 |
| Cursor.DueFits | utils/statsd/src/worker.rs:512-513 | an amount fits a signed 64-bit integer; a zero is offered only by an active cursor that has caught up |
| Cursor.NeverOvercounts | utils/statsd/src/worker.rs:508-521 | the accepted total never passes the true total, however often the counter wrapped |
| Cursor.AcceptedSendCatchesUp | utils/statsd/src/worker.rs:508-521 | one accepted send closes a gap that fits it |
| Cursor.RestartStaysFit | utils/statsd/src/worker.rs:508-521 | a restart from zero that cannot overcount stays so whatever is pushed later |
| Cursor.RestartOfSmallTotal | utils/statsd/src/worker.rs:508-521 | below 2^63 pushes a restart from zero cannot overcount exactly when nothing was accepted before |
| Cursor.SteadySendsFollowThePlan | utils/statsd/src/worker.rs:508-525 | while the counter is steady the accepted amounts are the difference in portions, then one zero, then nothing |
| Cursor.PlanIsShort | utils/statsd/src/worker.rs:508-525 | from the largest difference there are three portions and one final zero, and they add up to the difference |
| Cursor.CaughtUpWithinThree | utils/statsd/src/worker.rs:508-525 | three accepted sends carry the whole difference of a steady counter |
| SeriesRegistry.RegisterKeepsOk | utils/statsd/src/metrics.rs:348-388 | registration keeps the live count exact and within the cap and gives a new series an unused identifier |
| SeriesRegistry.RemoveKeepsOk | utils/statsd/src/metrics.rs:464-477 | removal frees exactly one place, only for a tracked pad, and its saturating decrement never saturates |
| SeriesRegistry.Metrics.constructor | utils/statsd/src/metrics.rs:280-310 | a new registry is empty and its identifiers start at one |
| SeriesRegistry.Metrics.IncrementEntry | utils/statsd/src/metrics.rs:398-418 | a push goes to exactly one of its series, the untracked count or nothing |
| SeriesRegistry.Metrics.RegisterPad | utils/statsd/src/metrics.rs:359-388 | registration chooses the entry by filter, cap and identifier space and changes no statistics |
| SeriesRegistry.Metrics.UpdatePad | utils/statsd/src/metrics.rs:322-418 | a push registers an unknown pad, or does nothing without an element; a filtered pad changes no counter, one over the cap or beyond the identifiers the untracked one, any other its own |
| SeriesRegistry.Metrics.RemovePadKey | utils/statsd/src/metrics.rs:464-477 | a removed series is queued for its last export, or counted as dropped when the queue is full |
| SeriesExport.CreditsStep | utils/statsd/src/metrics.rs:322-418 | every step keeps each counter the sum of the pushes credited to it |
| SeriesExport.PlacesStep | utils/statsd/src/metrics.rs:464-477 | a series is live, leaving or queued at most once, and never again once drained |
| SeriesExport.BooksStep | utils/statsd/src/metrics.rs:322-477 | every step, whenever cycles start, keeps the counters, the identifiers and the places of series right |
| SeriesExport.ExportFits | utils/statsd/src/worker.rs:417-445 | an export never carries the accepted total past the pushed one, whether the cursor matches or restarts, and leaves a matching cursor |
| SeriesExport.ExportKeepsCursors | utils/statsd/src/worker.rs:417-445 | an export keeps the cursor of every series with an export to come equal to its accepted total |
| SeriesExport.StepInv | utils/statsd/src/worker.rs:383-415 | every step keeps the invariant, except the start of a cycle while the series that is leaving may not restart from zero |
| SeriesExport.SeriesAccounting | utils/statsd/src/metrics.rs:322-477 | in every run, whenever cycles start, the live series are counted exactly and within the cap and every counter is the sum of its pushes |
| SeriesExport.SeriesConservation | utils/statsd/src/worker.rs:383-525 | in every run without such a start no more is accepted for a series than was pushed to it |
| SeriesExport.SnapshotInsideHandOverIff | utils/statsd/src/metrics.rs:464-477 | after a snapshot between removal and hand-over some run overcounts the leaving series if and only if it may not restart from zero; below 2^63 pushes, if and only if something was accepted for it before |
| SeriesExport.CreditIsFinal | utils/statsd/src/metrics.rs:398-418 | a push is credited once, by the entry it held, and the credit never changes |
| SeriesExport.SeriesAreNew | utils/statsd/src/metrics.rs:368-374 | a new series has an identifier that nothing in the run has seen |
| SeriesExport.AcceptedExportCatchesUp | utils/statsd/src/worker.rs:417-445 | an accepted export of a series that has its cursor, or had nothing accepted, brings it level with its counter when the gap fits one send |
| SeriesExport.EverySeriesCanCatchUp | utils/statsd/src/worker.rs:383-445 | from every reachable state between cycles one cycle can bring any live or retired series level with its counter, under the same conditions |
| SeriesExport.RemovedIsHandedOver | utils/statsd/src/metrics.rs:464-477 | a removed series is handed over while there is room in the queue, and counted as dropped otherwise |
| SeriesExport.CycleKeepsLiveCursors | utils/statsd/src/worker.rs:407-415 | after a cycle exactly the cursors of series that are still live are kept |
| SeriesExport.ExportState.ExportPadSnapshot | utils/statsd/src/worker.rs:383-415 | one cycle exports every series of the snapshot or the queue once and keeps exactly the cursors of the live ones |
| SeriesExport.ExportState.Drain | utils/statsd/src/worker.rs:396-402 | the retirement queue is emptied completely |
| SeriesExport.ExportState.ExportAll | utils/statsd/src/worker.rs:404-406 | each series is exported once and no other cursor changes |
| SeriesExport.SnapshotInsideHandOverOvercounts | utils/statsd/src/metrics.rs:464-477 | the failing case is reachable: a removal right after an accepted export, and a snapshot before its hand-over |
| Interval.LateMeansOvertaken | utils/statsd/src/metrics.rs:43-72 | the last push is never before the last reset; a push is late exactly when an earlier call named a later time, and then it changes nothing |
| Interval.SumTelescopes | utils/statsd/src/metrics.rs:57-71 | the intervals add up to last minus first of every unreset run |
| Interval.PushMeans | utils/statsd/src/metrics.rs:43-72 | a push that is not late makes an interval since the latest call if that was a push no reset has caught up with, and opens a run otherwise; a late push and a reset change neither |
| Interval.EveryPushCounts | utils/statsd/src/metrics.rs:43-72 | runs and intervals together are as many as the pushes that are not late, and there is at most one more run than resets |
| Interval.PlainIntervals | utils/statsd/src/metrics.rs:57-71 | without resets and with times in order the intervals are the differences of successive times |
| Interval.WithinCounts | utils/statsd/src/metrics.rs:62-68 | a bucket counts the intervals within its bound |
| Interval.BucketsAreCumulative | utils/statsd/src/metrics.rs:62-68 | a larger bound counts no fewer intervals and the last bucket counts all of them |
| Interval.PadInterval.constructor | utils/statsd/src/metrics.rs:34-41 | a new histogram describes the empty history |
| Interval.PadInterval.ResetAt | utils/statsd/src/metrics.rs:44-50 | a reset keeps the histogram the description of its history |
| Interval.PadInterval.ObserveAt | utils/statsd/src/metrics.rs:52-71 | a push keeps the histogram the description of its history |
| Interval.PadInterval.Record | utils/statsd/src/metrics.rs:62-69 | one interval is counted in every bucket it is within, in the count and in the sum, modulo 2^64 |
| Interval.NextTelescopes | utils/prometheus/src/metrics.rs:59-82 | each reset or push of the Prometheus timing keeps the intervals equal to the lengths of the runs |
| QueueCache.RenameInv | utils/statsd/src/metrics.rs:149-152 | applying a rename leaves every cached path right or owed a notification |
| QueueCache.PathNamesAncestors | utils/statsd/src/metrics.rs:580-588 | a path ends with the object's own name, and each name before it is that of the next ancestor |
| QueueCache.NotifyRenameInv | utils/statsd/src/metrics.rs:149-152 | the notification of a rename nobody watches takes nothing from a covered path |
| QueueCache.WatchInv | utils/statsd/src/metrics.rs:188-214 | connecting the watches keeps seen objects watched up to the one reached |
| QueueCache.ReadOneInv | utils/statsd/src/metrics.rs:580-587 | reading one name of a path keeps it right or owed a notification |
| QueueCache.RebuildInv | utils/statsd/src/metrics.rs:542-603 | every step of a rebuild keeps the invariant |
| QueueCache.StepInv | utils/prometheus/src/metrics.rs:647-708 | every edit, notification, recheck and rebuild step keeps the invariant |
| QueueCache.CacheAgreesWithTree | utils/statsd/src/metrics.rs:542-603 | outside a rebuild and with every edit notified, the flag is up or the cached labels are exactly those of the current tree and filter |
| QueueCache.StaleLabelIsOwedANotice | utils/prometheus/src/metrics.rs:647-708 | a label can be out of date only while a rename of its queue or an ancestor is still to be notified, and that will raise the flag |
| QueueCache.RefreshRepairs | utils/statsd/src/metrics.rs:542-603 | a cache that is out of date can always be repaired: with every edit notified, one sample left to itself lowers the flag and makes the labels those of the tree |
| QueueRefresh.Cache.constructor | utils/statsd/src/metrics.rs:178-185 | a new cache is empty and watches nothing |
| QueueRefresh.Cache.WatchAncestors | utils/statsd/src/metrics.rs:188-214 | the loop watches an element and all its ancestors, although it stops at the first object already seen |
| QueueRefresh.Cache.PathString | utils/statsd/src/metrics.rs:583-583 | reading names upwards gives the path of an object |
| QueueRefresh.Cache.Identify | utils/statsd/src/metrics.rs:580-588 | a remembered parent path gives the identity that reading it again would give |
| QueueRefresh.Cache.AddQueue | utils/statsd/src/metrics.rs:572-597 | one queue is watched, identified and kept if the filter lets it in |
| QueueRefresh.Cache.Rebuild | utils/statsd/src/metrics.rs:564-597 | the loop leaves the labels of all registered queues and has seen exactly their ancestors |
| QueueRefresh.Cache.RefreshQueueCache | utils/statsd/src/metrics.rs:542-603 | with the flag up the labels become those of the tree and filter and exactly the queues and their ancestors stay watched; with the flag down nothing changes |
| EmissionGate.OrderStep | analytics/ocrs/src/worker.rs:105-106 | every step keeps request ids increasing from posted to in hand to queued to still to come |
| EmissionGate.GateStep | analytics/ocrs/src/worker.rs:121-183 | every step keeps at most one message after the closing of the gate |
| EmissionGate.EmissionOrder | analytics/ocrs/src/worker.rs:96-184 | in every interleaving at most one message for each job, in strictly increasing order, and at most one after the gate closed |
| EmissionGate.SilentAfterJoin | analytics/ocrs/src/ocrsanalysis/imp.rs:556-570 | after a stop that joined the worker nothing is posted |
| EmissionGate.SilentAfterOwnStop | analytics/ocrs/src/ocrsanalysis/imp.rs:562-567 | after a stop from the thread of the worker itself, in a callback or when it drops the last reference, nothing is posted either |
| EmissionGate.NothingReopens | analytics/ocrs/src/ocrsanalysis/imp.rs:559-561 | a closed gate stays closed, a raised stop flag stays raised and no message is taken back |
| EmissionGate.AtMostOneAfterClosing | analytics/ocrs/src/ocrsanalysis/imp.rs:556-567 | from the closing of the gate at most one more message comes |
| EmissionGate.AtMostOneAfterStop | analytics/ocrs/src/worker.rs:105-183 | once the stop flag is up at most the job in hand is still answered |
| EmissionGate.JobIsAnswered | analytics/ocrs/src/worker.rs:105-183 | a request whose processing nobody stops is answered by exactly the message for its outcome; a panic also closes the gate and ends the worker |
| EmissionGate.EndsWithoutAMessage | analytics/ocrs/src/worker.rs:105-116 | a worker that finds its element gone or its stop flag up ends without a message |
| EmissionGate.StopDoesItsWork | analytics/ocrs/src/ocrsanalysis/imp.rs:556-570 | a stop raises the flag, closes the gate and hangs up before it waits or leaves |
| EmissionGate.FullChannelDropsTheNew | analytics/ocrs/src/ocrsanalysis/imp.rs:661-680 | a full channel keeps the older request |
| EmissionGate.JoinIsNeverStuck | analytics/ocrs/src/ocrsanalysis/imp.rs:562-569 | a thread waiting for the worker can always count on a step of the worker or of the producer |
| EmissionGate.JoinEnds | analytics/ocrs/src/ocrsanalysis/imp.rs:562-569 | once a thread waits for the worker, every run of more than twelve further steps has joined it |
| OcrFrames.FrameSampler.constructor | analytics/ocrs/src/ocrsanalysis/imp.rs:61-64 | a new sampler has seen and selected nothing |
| OcrFrames.FrameSampler.ResetGeneration | analytics/ocrs/src/ocrsanalysis/imp.rs:142-147 | a new generation starts with an empty sampler |
| OcrFrames.FrameSampler.SelectFrame | analytics/ocrs/src/ocrsanalysis/imp.rs:211-244 | the method decides and remembers as the sampling rule says |
| OcrFrames.RunSampler | analytics/ocrs/src/ocrsanalysis/imp.rs:142-244 | a sampler over any buffers and new generations selects the samples that the theorems below are about |
| OcrFrames.SamplesAreApart | analytics/ocrs/src/ocrsanalysis/imp.rs:211-244 | over any buffers and new generations, samples of one generation are at least the interval apart, and only the first may lack a time |
| OcrFrames.SelectedIffApart | analytics/ocrs/src/ocrsanalysis/imp.rs:227-243 | a timed buffer is selected exactly when it is an interval after every timed sample of its generation |
| OcrFrames.UntimedIffFirst | analytics/ocrs/src/ocrsanalysis/imp.rs:236-243 | an untimed buffer is selected exactly when nothing else of its generation was; without an interval every buffer is |
| OcrFrames.GenerationsAreCounted | analytics/ocrs/src/ocrsanalysis/imp.rs:211-226 | each call for a new generation and each step back in time begins another |
| OcrFrames.Pack | analytics/ocrs/src/worker.rs:208-254 | packing fails exactly for a frame over its limits, a short stride or a short source, and the shortcut gives the bytes of the loop |
| OcrFrames.PackRows | analytics/ocrs/src/worker.rs:240-246 | the loop concatenates the visible rows, and fails exactly when one of them is incomplete |
| OcrFrames.WholeFrame | analytics/ocrs/src/worker.rs:231-239 | without padding the rows are the front of the source |
| OcrFrames.RowsAt | analytics/ocrs/src/worker.rs:240-246 | each packed byte is the byte of its row and column |
| Sampler.SettingsIff | analytics/vlm/src/vlmanalysis/imp.rs:803-843 | the limits are accepted exactly within their ranges and when a full batch of the largest frames is still a legal batch |
| Sampler.BatchSampler.constructor | analytics/vlm/src/vlmanalysis/imp.rs:107-114 | a new sampler holds nothing |
| Sampler.BatchSampler.ResetGeneration | analytics/vlm/src/vlmanalysis/imp.rs:208-211 | a new generation starts with an empty sampler |
| Sampler.BatchSampler.CollectBatch | analytics/vlm/src/vlmanalysis/imp.rs:231-308 | the method accepts, rejects and completes as the sampling rule says |
| Sampler.RunSampler | analytics/vlm/src/vlmanalysis/imp.rs:208-308 | a sampler over any buffers and new generations completes the batches that the theorems below are about |
| Sampler.CollectKeepsSizes | analytics/vlm/src/vlmanalysis/imp.rs:280-307 | held bytes are the size of the held frames, a batch has exactly its frames within both limits, and the batch limit never rejects a frame |
| Sampler.SamplerBounds | analytics/vlm/src/vlmanalysis/imp.rs:208-308 | over any buffers and new generations the size bounds hold and the samples of one generation are at least the interval apart |
| Sampler.SkippedIffTooClose | analytics/vlm/src/vlmanalysis/imp.rs:255-264 | a timed buffer is passed over exactly when it comes less than an interval after some timed sample of its generation |
| Sampler.UntimedSkippedIff | analytics/vlm/src/vlmanalysis/imp.rs:258-264 | an untimed buffer is passed over exactly when a batch is being filled or its generation has an untimed sample; without an interval none is |
| Sampler.OutcomeIff | analytics/vlm/src/vlmanalysis/imp.rs:265-308 | what becomes of a buffer that is not passed over: unreadable, too large, held, or the last of a batch |
| Sampler.GenerationsAreCounted | analytics/vlm/src/vlmanalysis/imp.rs:238-245 | each call for a new generation and each buffer earlier than the one just before begins another |
| Sampler.SamplesAreTaken | analytics/vlm/src/vlmanalysis/imp.rs:280-308 | every buffer that is held or completes a batch is a sample of its generation, and nothing else is |
| Sampler.BatchIsConsecutive | analytics/vlm/src/vlmanalysis/imp.rs:298-307 | a batch is made of the latest consecutive samples, all of one generation |
| Sampler.SizeBound | analytics/vlm/src/vlmanalysis/imp.rs:838-843 | frames within the frame limit fit their number times that limit |

## Left out

- Caps negotiation, pad templates, properties, element metadata, plugin registration: library plumbing without logic of its own.
- Network and file input and output, TLS, URL and credential checks, the HTTP server, JSON and UDP formats: outside calls.
- ONNX Runtime, Tract, the recogniser and the S2 SDK: only the assumptions above are used of them.
- Wall-clock deadlines and timeouts: they are steps that may happen at any time, and no time bound is proved.
- Floating-point rounding, overflow to infinity inside the decoder and NaN payloads: values are exact reals.
- What the 30-second recheck of the queue cache compares: in the model any sample may begin a rebuild; the edits without a notification that it looks for leave nothing claimed until one is notified.
- Queue elements that die while they are registered: their removal is an ordinary removal in the model.
- Pushes through a map entry pinned before its series had its last export are counted for the series but not exported; the model covers them as pushes after removal.
- The byte and interval counters of a series: they go through the same cursor code as the buffer counter that is followed.
- The Prometheus client's own histogram and gauge families: a library.
- Model-info text parsing and the matching of tensor names between model-info and session: lookups without arithmetic.
- The drain deadline that cannot be represented as an instant: the sink then returns before it takes the lock.
- NATS elements, console elements and the CI scripts: easier versions of the same ideas.
- Nms.SortUnstable: does not model the library's sorting algorithm; any sorted permutation is allowed, and the results above hold for all of them.
- GridDecode.DecodeValues: does not model reservation of buffer capacity, which changes no value.
- SeriesExport.ExportState.ExportPadSnapshot: covers a cycle without concurrent pushes; the interleaved cycle is `SeriesExport.StepInv`.
- ShapeConstraints.ConstrainOutput: does not model the conversion to 32 bits, because the type check before it admits only axes that fit.
- QueueRefresh.Cache.RefreshQueueCache: covers a rebuild with nothing else running; the interleaved rebuild is `QueueCache.StepInv`.
- DurableSink.NoLostWakeups: does not bound how long a wakeup takes to arrive.
- EmissionGate.JoinEnds: bounds the number of steps, not their time; the backend may run for any time within its one step.
