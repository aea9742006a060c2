# Verified model of the smart-factory pilot's data paths

This project models, in Dafny, the parts of the repository where derived data has to agree with a
simple source, and proves that it does:

- **Text ingestion.** Lines of a PDF become a title and sections (`PdfParser`, `Outline`), section texts become
  pieces with overlap (`Chunker`, `Packing`), and both together become numbered chunks (`ManualText`,
  `LongTitles`). The main results: a parse is the one grouping of the lines at their headings, no document is
  swallowed by its headings, pieces take up paragraphs as long as they fit, and every non-whitespace character of
  every body line is in the new part of exactly one chunk, or is named as skipped where the overlap exceeds the
  budget.
- **Circuit breakers.** `Statistics` holds the window statistics and Samuelson's bound, `Detector` the
  state machine over samples, registry reloads and resets, `DetectorService` the mutable object that
  refines it. `DetectorSafety`, `DetectorWindows` and `DetectorSymmetry` prove what every run keeps: the TRIP
  latch, exact alerts, windows that are the last 30 values, silence of monitors without thresholds for
  their first samples (`DetectorSilence`), and independence of the scale's zero point and orientation.
  `DetectorVerdicts` says when a sample warns or trips, and what it, a reset and a reload change.
- **Ingestion protocol.** `Ingestion` interleaves API calls and worker steps on one document (events are
  keyed by document, so the worker sees a document's events in order). `IngestionSafety` proves, for every
  interleaving, that a DONE document is indexed exactly, that deletions are completed, and that a settled
  system is consistent; `DeadLetters` says when an event is given up, and `IngestionRuns` what undisturbed
  uploads, updates and deletions achieve. `IndexContent` connects the rows to the chunks of the parsed file.
  `Retry` is the worker's attempt loop.
- **Event streams.** `Fanout` is the bounded fan-out to subscribers. `Sse` is the chat's event printer
  against the client's incremental parser, `ChatStream` the order of events and the stored answer.
- **Retrieval.** `Embedding` (cache in front of batched calls), `Retriever` (neighbour expansion and
  trimming), `Impact` (path rows reduced to breadth-first distances), `Sorting` (ordered listings of
  dictionary values).

How things are represented:

- Values, scores and font sizes are reals. A standard deviation is any non-negative number whose square
  is the population variance; it comes with each sample, so no square root is needed.
- JSON is a pair of functions, `encode` and `decode`, where `encode` yields one non-empty, trimmed line and
  `decode` inverts it.
- A function named after a loop (`PackAll`, `Pass`, `Groups`, ...) is the specification of the method with that
  loop; its properties are proved as lemmas.
- `Fed`, `Failures`, `Delivered`, `history`, `joined`, `received`, `dup`, `skipped`, `marked`, `lost`, `missed` and
  `found` record facts about the past that the properties speak about; the program does not store them.

Where the code and the repository's documentation differ (window of the slope, recovery from WARNING,
chunk sizes, alert severities), the model follows the code.

Results that differ from what one would hope for, each with its exact condition and all but the last with a witness:

- The hard split of an over-long paragraph ends exactly when the overlap is not the budget and at most
  twice the budget (`HardSplitTerminates`), and a section loses ink exactly when a paragraph is cut with an
  overlap above the budget where the dropped stretch has ink (`SplitLosesNothing`, `HardSplitLosesText`).
  Two-line documents with a long title reach both (`LongTitlesBreakChunking`): at the default settings, for a
  body that is hard-split, a heading path of 747 characters does not end, 748 to 822 characters lose text, and
  823 and more do not end. The theorems about splitting hold for every input on which the chunker ends; they
  name the skipped text.
- A delete event whose publication fails leaves the rows of a deleted manual in the index for good
  (`LostDeleteLeavesRows`, `OrphansStay`), and a metadata update whose event is lost during a running upsert
  leaves a drawing DONE with its former card (`LostUpsertLeavesStaleCard`). The agreement theorems except
  only what was lost or dead-lettered since the worker last found the record; a later update or
  re-ingestion makes up for it (`RepairRestores`).
- Two monitors whose ids and sensors give the same window key share a window (`KeysCanCollide`,
  `CollidingRun`). Windows are right exactly as long as no two breakers share a key (`WindowsAreRecent`,
  `MatchIffApart`), as with ids without colons (`PlainIdsApart`).
- The neighbour of a hit comes after it in the context exactly when the hit's score is positive, or zero and the
  neighbour has the higher number (`NeighborFollows`).

## Model

| member | source | states |
|---|---|---|
| `Text.StripInk` | backend/worker/pipelines/chunker.py:41-48 | stripping removes no non-whitespace character and leaves nothing exactly when there is none |
| `Text.ParagraphsInk` | backend/worker/pipelines/chunker.py:41 | the paragraphs of a text carry exactly its non-whitespace characters in order; there are none iff the text is blank |
| `Text.StripMeaning` | backend/worker/pipelines/chunker.py:41-48 | stripping cuts exactly the whitespace at both ends |
| `Text.SplitLinesMeaning` | backend/worker/pipelines/chunker.py:41 | a text is cut exactly at its line ends, where CR LF counts as one |
| `PdfParser.BodySizeIsMode` | backend/worker/parser/pdf_parser.py:60-65 | the body size occurs, no size carries more characters, and a size that ties with it does not occur earlier |
| `PdfParser.ComputeBodySize` | backend/worker/parser/pdf_parser.py:60-65 | the counter loop and its first maximum compute that size, 10.5 without lines |
| `PdfParser.GroupsIsGrouping` | backend/worker/parser/pdf_parser.py:90-102 | the section pass reproduces the lines in order, heads are headings, body lines are not, only a non-empty first section is synthetic |
| `PdfParser.GroupingUnique` | backend/worker/parser/pdf_parser.py:90-102 | there is only one such grouping, so the sections are determined by the heading test alone |
| `PdfParser.PassIsParse` | backend/worker/parser/pdf_parser.py:86-102 | the line-by-line pass yields the first title-sized line as title and the grouping of all other lines as sections |
| `PdfParser.SectionPass` | backend/worker/parser/pdf_parser.py:86-102 | the loop over the lines, with its in-place text concatenation, computes title and sections |
| `PdfParser.ParsePdf` | backend/worker/parser/pdf_parser.py:77-120 | the whole parse, with both fallbacks and the heading paths |
| `PdfParser.ParseKeepsLines` | backend/worker/parser/pdf_parser.py:86-102 | at most one line becomes the title, all other lines reappear in order as headings or body text |
| `PdfParser.BodyLineSurvives` | backend/worker/parser/pdf_parser.py:81-102 | in every non-empty document some line of body size lands in a section's text |
| `PdfParser.MergeFallbackUnreachable` | backend/worker/parser/pdf_parser.py:104-117 | the merge of headings without body is dead code; the empty section appears exactly for no lines |
| `PdfParser.SectionPagesAscend` | backend/worker/parser/pdf_parser.py:86-102 | lines in page order give sections in page order |
| `Outline.ParseIsOutline` | backend/worker/parser/pdf_parser.py:67-120 | the whole parse from its lines: the first line within 0.1 points of the largest size is the title, if that is 3.5 points above the body; the other lines are divided at headings (1.5 points above the body, 2 to 80 characters, with a digit, letter or Hangul syllable) into sections with heading, page of the first line, body text and path |
| `Outline.EmptyDocument` | backend/worker/parser/pdf_parser.py:116-120 | a document without lines is one empty section, named after the file |
| `Chunker.ComputeSplitBody` | backend/worker/pipelines/chunker.py:39-62 | the packing loop with flush, overlap tail and hard split computes the specified pieces, on every input on which it ends |
| `Chunker.SplitConserves` | backend/worker/pipelines/chunker.py:39-62 | whenever the loop ends: without the duplicated prefixes, which really repeat the piece before, and with what the hard split skipped, the pieces carry exactly the section's ink in order; no piece is empty or over budget; there is one iff there is ink |
| `Chunker.SplitLosesNothing` | backend/worker/pipelines/chunker.py:39-62 | the pieces carry all ink of the section iff no paragraph that does not join is cut, with an overlap above the budget, where the dropped stretch has ink; with an overlap up to the budget there is none |
| `Chunker.HardSplitCuts` | backend/worker/pipelines/chunker.py:58-60 | an over-long text takes exactly ceil((L-m)/(m-overlap)) cuts of length m, neighbours share exactly the overlap |
| `Chunker.HardSplitTerminates` | backend/worker/pipelines/chunker.py:58-60 | for any budget, also negative, the cutting loop ends iff overlap != budget and overlap <= 2 * budget |
| `Chunker.HardSplitLosesText` | backend/worker/pipelines/chunker.py:58-60 | with an overlap above the budget the hard split makes one cut, and it drops characters iff the text is longer than the overlap; otherwise cut and remainder carry all ink |
| `Chunker.NoBudgetEnds` | backend/worker/pipelines/chunker.py:39-62 | with a heading path that uses up the limit, the chunker ends iff the section is blank |
| `Packing.PiecesExplained` | backend/worker/pipelines/chunker.py:39-62 | the pieces take up all paragraphs in order: each starts with the overlap tail of the piece before, or with what a cut has left; paragraphs are joined by line feeds; a text is cut exactly when it is over budget, at the budget; and otherwise the next paragraph would not have fit |
| `Packing.PieceIsFull` | backend/worker/pipelines/chunker.py:52-56 | a piece neither cut nor after a cut would exceed the budget with the next paragraph on one more line |
| `Packing.FittingTextIsOnePiece` | backend/worker/pipelines/chunker.py:52-62 | paragraphs that fit together are one piece, joined by line feeds |
| `ManualText.ComputeChunks` | backend/worker/pipelines/chunker.py:18-36 | the loop over sections and pieces computes the numbered, prefixed chunks, on every input on which it ends |
| `ManualText.ChunksNumbered` | backend/worker/pipelines/chunker.py:18-36 | numbers are 0..n-1, no chunk exceeds the limit, there is a chunk iff some section has text |
| `ManualText.ChunksShowSections` | backend/worker/pipelines/chunker.py:24-36 | the chunks are those of the sections in order: each has the page and the joined path of its section, and its text is this path in brackets, a space, and the next piece of the section's text for the budget that is left |
| `ManualText.ChunksConserve` | backend/worker/pipelines/chunker.py:24-36 | over the document, the texts of the chunks behind bracketed heading and duplicate, with what was skipped, carry exactly the ink of the sections; without what was skipped iff no section loses ink; duplicates repeat the end of the chunk before |
| `ManualText.ChunkPagesAscend` | backend/worker/pipelines/chunker.py:24-36 | sections in page order give chunks in page order |
| `ManualText.ParseAndChunk` | backend/worker/pipelines/manual_pipeline.py:51-55 | parse, chunk, and the "no text" error exactly for documents without lines |
| `ManualText.NoTextIffNoLines` | backend/worker/pipelines/manual_pipeline.py:53-55 | there are no chunks iff there are no lines |
| `ManualText.IngestConservesText` | backend/worker/pipelines/chunker.py:18-62 | from lines to chunk texts: the ink of all lines that are neither title nor heading, once and in order; some is lost iff some section loses ink, and none with budgets above the overlap |
| `ManualText.IngestPagesAscend` | backend/worker/pipelines/chunker.py:24-36 | lines in page order give chunks in page order |
| `LongTitles.LongTitlesBreakChunking` | backend/worker/pipelines/chunker.py:24-27 | at the default settings, two-line documents for every title length: up to 746 characters of heading path all is well, with 747 the chunker does not end, with 748 to 822 it loses text, from 823 on it does not end |
| `Statistics.CauchySchwarz` | backend/app/services/anomaly_detector.py:294-297 | the squared sum of a window is at most its length times the sum of squares |
| `Statistics.ZScoreBound` | backend/app/services/anomaly_detector.py:293-297 | the Z-score of n samples squares to less than n - 1 |
| `Statistics.ZScoreNeedsSamples` | backend/app/services/anomaly_detector.py:293-297 | Z cannot reach 2.5, 3, 4, 5 with fewer than 8, 11, 18, 27 samples |
| `Statistics.ZScoreBoundSharp` | backend/app/services/anomaly_detector.py:293-297 | 8, 11, 18 and 27 are the smallest sample counts for which some window reaches these Z-scores |
| `DetectorService.AnomalyDetector.ProcessSample` | backend/app/services/anomaly_detector.py:256-352 | the object's whole state after a sample is that of the state machine, whose single steps `DetectorVerdicts` describes |
| `DetectorService.AnomalyDetector.GetOrAutoRegister` | backend/app/services/monitor_registry.py:176-216 | a known profile, a single registration per equipment and process, or nothing |
| `DetectorService.AnomalyDetector.UpdateBreaker` | backend/app/services/anomaly_detector.py:281-321 | window update, statistics and state decision, with the latch, as in the state machine; their meaning is `SampleIsJudged` |
| `DetectorService.AnomalyDetector.TriggerAlert` | backend/app/services/anomaly_detector.py:429-457 | the alert is appended to the bounded list and broadcast |
| `DetectorService.AnomalyDetector.ReloadRegistry` | backend/app/services/anomaly_detector.py:119-151 | the reload loop replaces thresholds, keeps state and windows, removes vanished monitors |
| `DetectorService.AnomalyDetector.ResetCircuitBreaker` | backend/app/services/anomaly_detector.py:183-204 | one or all breakers are reset, an unknown id is an error without effect |
| `DetectorSafety.TripHolds` | backend/app/services/anomaly_detector.py:306-312 | along every stretch of a run without a reset or removal, a tripped breaker stays tripped |
| `DetectorSafety.LimitTrips` | backend/app/services/anomaly_detector.py:375-382 | along every run, a value beyond the trip limit trips the breaker, in both limit directions, and it stays tripped until a reset or its removal |
| `DetectorSafety.AlertTrace` | backend/app/services/anomaly_detector.py:323-333 | the alerts of a run are exactly the entries of its breakers into WARNING or TRIP, one each and in order, with that severity and value |
| `DetectorSafety.StateHolds` | backend/app/services/anomaly_detector.py:119-151 | along every stretch of a run without own samples, resets and removal, a breaker keeps its state, whatever reloads happen |
| `DetectorSafety.TripAlertsBounded` | backend/app/services/anomaly_detector.py:306-333 | TRIP alerts of an equipment are at most its registrations plus its resets, over every run |
| `DetectorSafety.RegistryAgrees` | backend/app/services/monitor_registry.py:136-216 | breaker keys equal profile keys, limits equal profile limits, both windows have equal length, each equipment is registered in the graph at most once |
| `DetectorVerdicts.SampleIsJudged` | backend/app/services/anomaly_detector.py:281-388 | over every run: the sample joins its window of 30; with both limits it trips iff it is at or beyond the trip limit or Z reaches 4, and it is not NORMAL iff also the warning limit, Z 2.5, or a tenth of the limits' distance per second in their direction is reached; without limits Z 5 and Z 3 decide; a tripped breaker stays tripped; Z and slope are those of the window |
| `DetectorVerdicts.SampleDeviates` | backend/app/services/anomaly_detector.py:293-297 | in a legal run the deviation that comes with a sample is the deviation of its window |
| `DetectorVerdicts.SampleIsBroadcast` | backend/app/services/anomaly_detector.py:323-352 | over every run: a sample broadcasts a new monitor, the alert on entry into WARNING or TRIP, and itself, in this order, and adds just this alert |
| `DetectorVerdicts.SampleIsRegistered` | backend/app/services/monitor_registry.py:176-216 | over every run: a sample finds no monitor iff its equipment has none and no id or was tried before, and then changes nothing; another unknown equipment is registered without limits |
| `DetectorVerdicts.ResetClears` | backend/app/services/anomaly_detector.py:183-204 | over every run: each targeted breaker is NORMAL afterwards, with nothing measured and an empty window; the others are as before; an unknown target changes nothing |
| `DetectorVerdicts.ReloadReplaces` | backend/app/services/anomaly_detector.py:119-151 | over every run: profiles are those of the graph or the defaults, known breakers only get their profile, new ones start in NORMAL, exactly the windows of removed monitors go, and removals are broadcast |
| `DetectorWindows.WindowsAreRecent` | backend/app/services/anomaly_detector.py:281-321 | the window is the last min(30, k) values since the last reset or registration and equals `recent_values`, as long as no two breakers share a window key |
| `DetectorWindows.KeysCanCollide` | backend/app/services/anomaly_detector.py:284 | a concrete run of two samples after which a window mixes the values of two monitors |
| `DetectorWindows.CollidingRun` | backend/app/services/anomaly_detector.py:281-290 | whenever two new monitors have the same window key, the window of the second holds the value of the first |
| `DetectorWindows.MatchIffApart` | backend/app/services/anomaly_detector.py:281-321 | windows that are not full go on matching `recent_values`, whichever monitor is sampled next, iff no two monitors share a window key |
| `DetectorWindows.PlainIdsApart` | backend/app/services/anomaly_detector.py:284 | equipment ids without a colon never share a window key |
| `DetectorSilence.EarlySilence` | backend/app/services/anomaly_detector.py:364-370 | over every run, a monitor without thresholds cannot warn in its first 10 nor trip in its first 26 samples |
| `DetectorSilence.FirstSamplesSilent` | backend/app/services/anomaly_detector.py:281-370 | the same for the first samples of a run, with any sensor ids, sensor changes, resets and removals, as long as no sample of another equipment enters a window of the monitor |
| `DetectorSilence.PlainKeysApart` | backend/app/services/anomaly_detector.py:284 | for equipment ids without a colon no such sample exists |
| `DetectorSymmetry.ScaleInvariance` | backend/app/services/anomaly_detector.py:293-388 | for every run, shifting or mirroring all samples and thresholds gives the same states, Z-scores and alert points after every prefix |
| `Fanout.SubscribersSeeNoGaps` | backend/app/services/anomaly_detector.py:206-222 | received plus queued is a contiguous run of the history from the subscription on, all of it while subscribed, never more than 100 queued |
| `Fanout.ReadsInOrder` | backend/app/api/v1/routes/telemetry.py:124-136 | the reads of a stream return the events broadcast since its subscription one after the other, none skipped and none twice |
| `Fanout.DroppedOnlyWhenFull` | backend/app/services/anomaly_detector.py:211-222 | a broadcast or an unsubscribe ends a subscription iff 100 events are queued, or it is its own unsubscribe; nothing else does |
| `Fanout.EndedStaysEnded` | backend/app/services/anomaly_detector.py:211-222 | after the end of its subscription a queue gets no further event, whatever follows |
| `Fanout.Hub.Broadcast` | backend/app/services/anomaly_detector.py:214-222 | the loop over the subscribers, collecting the full ones, is the broadcast step |
| `Fanout.Hub.Get` | backend/app/api/v1/routes/telemetry.py:124-136 | a stream takes the oldest queued event, or nothing |
| `IngestionSafety.RunKeeps` | backend/worker/pipelines/manual_pipeline.py:45-133 | the protocol invariant holds after every interleaving of API and worker steps |
| `IngestionSafety.ManualDoneIsIndexed` | backend/worker/pipelines/manual_pipeline.py:62-89 | a manual in status DONE has exactly its file's chunks indexed, numbered 0..chunk_count-1, with page, untruncated text, and heading up to 512 characters |
| `IngestionSafety.DrawingDoneIsIndexed` | backend/worker/pipelines/drawing_pipeline.py:30-67 | a drawing in status DONE has exactly the card of its current metadata and revision, with its title, description and equipment up to 256, 2048 and 64 characters, unless an upsert is about to be published, queued, in work, or was lost since the worker last found the record |
| `IndexContent.CardTextLists` | backend/worker/pipelines/drawing_pipeline.py:35-46 | the embedded text contains every field, and lists all five in order with their labels when they are given |
| `IngestionSafety.DoneShowsWhatWasFound` | backend/worker/pipelines/drawing_pipeline.py:30-67 | whatever was lost, a DONE drawing outside of an upsert has exactly the card of the source the worker found last; it is current iff that source and the present one have the same card |
| `IngestionSafety.SettledIsConsistent` | backend/app/services/drawing_service.py:73-125 | at rest, an existing document is DONE and indexed unless an upsert was lost or dead-lettered since the worker last found the record; a deleted one has no rows unless its delete was |
| `IngestionRuns.RepairRestores` | backend/app/services/document_service.py:112-120 | from every reachable state at rest, whatever was lost before, a re-ingestion, update or revision that nothing disturbs changes the source as asked and leaves the document DONE and indexed from it, with nothing more dead-lettered or lost |
| `IngestionRuns.UploadIsIndexed` | backend/worker/pipelines/manual_pipeline.py:45-96 | an upload that nothing disturbs ends at rest, DONE and indexed |
| `IngestionRuns.DeleteClears` | backend/worker/pipelines/manual_pipeline.py:102-107 | from every reachable state at rest with a record, a delete call, the delivery of its event and three successful pipeline calls leave no record, no file and no rows, and nothing is dead-lettered or lost |
| `DeadLetters.UndisturbedSettles` | backend/worker/main.py:128-134 | over every run without failing pipeline calls and broken-off API calls nothing is dead-lettered or lost, and at rest the document is DONE and indexed, or deleted and without rows |
| `DeadLetters.GivenUpOnlyWhenHopeless` | backend/worker/main.py:135-170 | over every run an event is dead-lettered iff its handling failed with a permanent error or for the third time; any other failure starts the next attempt; a failure sets the record to FAILED; an event is lost iff its publication fails |
| `IngestionSafety.DeletionIsPending` | backend/app/services/document_service.py:105-110 | rows of a deleted document imply a delete event about to be published, queued, in work, dead-lettered or lost |
| `IngestionSafety.NoInsertAfterDelete` | backend/worker/pipelines/manual_pipeline.py:47-75 | an upsert that starts after the deletion never inserts rows, whatever follows |
| `IngestionSafety.OrphansStay` | backend/worker/pipelines/manual_pipeline.py:102-107 | only a delete event clears the rows of a deleted document: once none is on its way or in work, no later step changes them |
| `IngestionRuns.LostDeleteLeavesRows` | backend/app/services/document_service.py:105-140 | a delete whose publication fails leaves the rows behind, with nothing pending, whatever happens afterwards |
| `IngestionRuns.LostUpsertLeavesStaleCard` | backend/app/services/drawing_service.py:90-95 | an update whose publication fails can leave a DONE drawing with its former card |
| `Retry.HandleWithRetry` | backend/worker/main.py:116-173 | the statuses are those of the attempts, then DONE iff one succeeds, DEAD iff a permanent or third error is recorded, or an exception where a status or the dead letter cannot be written; a dead letter exactly for DEAD; backoff 0, 5 or 20 seconds; unknown types are skipped |
| `Retry.OutcomeUnique` | backend/worker/main.py:128-173 | there is exactly one number of retries and one end for any results of attempts and status writes |
| `Retry.HistoryShape` | backend/worker/main.py:128-173 | the statuses are RUNNING, then a pair FAILED RUNNING for each retry, iff every attempt gets to write RUNNING |
| `Retry.PermanentErrorEnds` | backend/worker/main.py:142-154 | a permanent error ends on its own attempt; total backoff is 0, 5 or 20 seconds |
| `Retry.PermanentErrors` | backend/worker/main.py:100-113 | the permanent errors are four classes of built-in errors and those whose class name contains one of two names |
| `Sse.ReadStream` | frontend/src/api/chat.ts:54-71 | the buffer loop yields the events of the joined text, for any fragmentation |
| `Sse.ParseSseBlock` | frontend/src/api/chat.ts:73-86 | the line loop of one block: event name, joined data, parse errors and empty data dropped |
| `Sse.BlocksAppend` | frontend/src/api/chat.ts:61-69 | text that arrives later changes no block that is already complete |
| `Sse.DataMeaning` | frontend/src/api/chat.ts:73-80 | the data of a block are its trimmed `data:` lines, with nothing between them |
| `Sse.NameMeaning` | frontend/src/api/chat.ts:73-80 | the event name is the last `event:` line, trimmed, or "message" |
| `Sse.TrimMeaning` | frontend/src/api/chat.ts:77-78 | trimming cuts exactly the white space at both ends |
| `Sse.PrintedLines` | backend/app/api/v1/routes/chat.py:53-57 | a printed event is an `event:` line, a `data:` line with its JSON text, and an empty line |
| `Sse.RoundTrip` | backend/app/api/v1/routes/chat.py:53-57 | printed events, cut into any pieces, are read back as the same list |
| `Sse.TruncatedStream` | frontend/src/api/chat.ts:58-70 | a connection that breaks off at any character shows exactly the complete events |
| `ChatStream.ChatService.AskStream` | backend/app/services/chat_service.py:71-154 | all events for every failure point: the found sources, the graph iff there is an impact, with its root and nodes, exactly the tokens of the parts sent before the failure, and done or the right error code; and exactly the stored messages, the answer with its citations and impact |
| `ChatStream.ChatService.Exchange` | backend/app/api/v1/routes/chat.py:53-62 | the same events at the client, through the printer, any network fragmentation and the client parser; it sees `done` iff nothing failed, and then the deltas it has joined are the stored answer |
| `ChatStream.AnswersOrdered` | backend/app/services/chat_service.py:71-154 | these events are well ordered, and a done event is the last one |
| `ChatStream.AnswersAgree` | backend/app/services/chat_service.py:111-154 | what the client has joined at `done` is what is stored |
| `Embedding.EmbeddingCache.EmbedTexts` | backend/app/services/embedding_service.py:19-47 | from any correct cache the direct embedding of each text in order; every missing index sent once, in batches that are full but for the last; under failing calls and expiring entries the cache stays correct, keeps what does not expire, and after a success covers all texts |
| `Embedding.FillBatch` | backend/app/services/embedding_service.py:34-38 | a batch fills its slots in place and queues the right cache writes |
| `Retriever.ExpandNeighbors` | backend/app/services/retriever_service.py:145-166 | the dictionary loop and the sort compute the specified expansion |
| `Retriever.ExpansionSound` | backend/app/services/retriever_service.py:145-166 | every hit kept, falling scores with ties by document and number, no repeated chunk, exactly the stored neighbours of the top three added, with the stored row and 0.98 times the score of the earliest |
| `Retriever.NeighborFollows` | backend/app/services/retriever_service.py:160-166 | a neighbour comes after the hit it is scored from iff the score is positive, or zero and the neighbour has the higher number |
| `Retriever.ExpansionDeterministic` | backend/app/services/retriever_service.py:164-166 | the result does not depend on dictionary order |
| `Retriever.TrimToBudget` | backend/app/services/retriever_service.py:168-177 | the longest prefix within 4000 characters |
| `Retriever.TrimKeepsFour` | backend/app/services/retriever_service.py:168-177 | with chunks of at most 900 characters at least min(4, count) are kept |
| `Impact.ReduceRows` | backend/app/repositories/neo4j/graph_repository.py:210-218 | the row loop keeps the first row of minimal depth per target, sorted by depth and id; no rows is an index error |
| `Impact.ReductionGivesDistances` | backend/app/repositories/neo4j/graph_repository.py:180-218 | the items are exactly the nodes within three steps, once each, with their breadth-first distance, by growing depth and growing ids at each depth |
| `Impact.ShortestIsDistinct` | backend/app/repositories/neo4j/graph_repository.py:189-195 | a shortest walk repeats no relationship, so enumerating only edge-distinct paths misses none |
| `Sorting.SortedValues` | backend/app/services/retriever_service.py:165 | the sorted list of a dictionary's values |
| `Sorting.AscendingUnique` | backend/app/services/retriever_service.py:165 | there is only one strictly ascending list of given values |
| `Sorting.StringLessMeaning` | backend/app/services/retriever_service.py:165 | one string is less than another iff it is a proper beginning of it or less where they first differ |

## Left out

- ComputeSplitBody: only inputs on which the loop ends have a result; `HardSplitTerminates` says which hard splits end.
- EmbedTexts: cache keys are taken as injective in the text, and vectors survive their JSON encoding.
- DrawingDoneIsIndexed: excepts an upsert lost since the worker last found the record, because the property fails for it.
- HandleWithRetry: after an escaping exception the worker process ends; what the queue then redelivers is not modelled.
- IngestionSafety.RunKeeps: one document at a time; steps on different documents touch disjoint data.
- ProcessSample: processing one sample is atomic; a reload between the graph call of an auto-registration and its
  in-memory record is not interleaved.
- WindowsAreRecent: samples carry their breaker's own sensor id or none, and reloads keep it.
- Kafka crash, rebalance and offset commits, and the loss or repetition of records they can cause.
- PyMuPDF extraction, Milvus ranking, the Neo4j engine, Mongo, Redis and the model servers: they appear as sets of
  lines, finite maps, rows and functions.
- Which exceptions count as permanent inside the protocol: the worker's calls may fail either way there; `Retry` has
  the classification. Job records are never gone there, and dead letters can be sent.
- Rounding of displayed scores, reason texts, guide texts of alerts, the path details of the graph event, log
  records, ids and clock values.
- UTF-8 decoding and JSON syntax; the telemetry stream's initial snapshot and keep-alive comments.
- The telemetry simulator, CRUD routes, upload validation, health, statistics and UI components: they keep no derived
  data that has to agree with a source.
- Why a stage of the pipeline fails: `Reading` covers parsing and chunking and may fail in parsing, also for a file on
  which the chunker would not end; where the chunker does not end, the stage never succeeds.
- The equipment tags that the manual pipeline extracts and links in the graph: not part of the index.
