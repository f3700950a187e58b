# A verified model of the RAG platform's core

This project models, in Dafny, the parts of the platform where the logic is hard, and proves
what they promise:

- **Ingestion lifecycle** (`Lifecycle*.dfy`, `ServiceRuns.dfy`, `IngestionService.dfy`): uploads, the broker and
  the worker deliveries are one step system. A step is one read, one transaction or one broker
  operation, so deliveries of the same document interleave at every such point; the load and the
  PROCESSING write are separate steps, and so are the chunk DELETE and the commit that follows
  it. `Exec` runs any list of events from the empty system; every theorem about it quantifies
  over all lists. `IngestionService` is the code itself, on the tables it writes. Its methods, and
  the upload routes, yield the run of steps they take among any other tasks, as long as none of
  those moves meanwhile; `IngestDocument` and the routes carry any run that ends where they start
  on to where they end (`ServiceRuns.Continues`).
- **Uploads** (`Uploads.dfy`) and **status stream** (`StatusStream.dfy`): the two upload routes
  and the SSE route of one document.
- **Chunker** (`Text.dfy`, `Chunking.dfy`, `SentenceLaws.dfy`, `Packing.dfy`, `ChunkBounds.dfy`),
  **markdown scanner** (`Markdown.dfy`, `MarkdownLaws.dfy`), the two together (`EndToEnd.dfy`,
  `Provenance.dfy`), and together with the lifecycle (`StoredText.dfy`).
- **Retrieval** (`Ranking.dfy`, `Retrieval.dfy`, `FusionLaws.dfy`, `SearchResults.dfy`, `Search.dfy`,
  `SearchExact.dfy`): reciprocal rank fusion, rerank and the cut to `top_n`, with real-valued scores.
- **Server-sent events** (`Sse.dfy`): the Python printer against the TypeScript parser. This is a
  subset of section 9.2 of the WHATWG HTML Living Standard; nothing is claimed for the rest.
- **Rate limiter** (`RateLimit.dfy`) and **citation filter** (`Citations.dfy`).

Code that the source writes as loops over mutable state is written as methods on classes or with
loops, each proved against a specification function; the theorems are about those functions. What
such a function computes is said again without it, from the text, the rows or the hits themselves:
where the sentence expression matches, what a fence hides, what a numeral is worth, which tables a
delivery leaves, what can be read off a search's answer.

## Assumptions of the lifecycle

`Reliable` runs have no `Drop` event. A `Drop` is one of: the broker loses a message; an upload
dies between its committed row and its enqueue outcome (a `mark_failed` that fails after a failed
enqueue included); a delivery's message is acknowledged without its work being done, because its
pool process was killed or because the `mark_failed` at exhaustion failed. Publishing a
retry is assumed to succeed together with the failed attempt. Crashes requeue the message
(`acks_late`), any message or running delivery may be duplicated at any time, an enqueue may
report failure although its message got through, and any exception may strike at any point of
`process`, after its last commit included. The ORM writes an attribute only when its value
differs from the loaded one. A document's id is never issued twice.

## Where the code and its documentation disagree

The model follows the code.

- Of the terminal states, *"once a document reaches one, its status never changes again"*
  (`src/rag_platform/api/routes/documents.py:32`) is false: `TerminalCanChange` gives the run,
  `TerminalFinalIff` says exactly when a status is final, and `TerminalIsFinal` proves the
  statement for exactly-once delivery.
- *"nothing is ever left stuck in PROCESSING forever"* (`src/rag_platform/worker/tasks.py:16-17`) holds
  for reliable runs (`NeverStuck`, `IdleMeansTerminal`, `AlwaysRecoverable`); one failed
  `mark_failed` at exhaustion breaks it for good (`LostMarkSticks`). `RecoverableIff` says exactly
  when a document is stuck.
- *"a worker killed mid-task gets the message redelivered instead of silently dropped"*
  (`src/rag_platform/worker/celery_app.py:21-23`): `task_acks_late` alone does not give this for a
  killed pool process, whose message Celery acknowledges unless `task_reject_on_worker_lost` is
  set. Such a loss is a `Drop`; `LossIsFatalIff` says when it leaves the document stuck.
- The storage quota is a sum followed by an insert, so overlapping uploads can exceed it.
  `StorableExact` says which amounts k overlapping uploads can store: those of files with different
  hashes of which all but at most k - 1 fit the quota. `QuotaExact`: all runs keep the quota exactly
  when uploads of a tenant do not overlap, or there are too few different files to exceed it.
- *"a bucket can never linger unexpired forever"* (`src/rag_platform/ratelimit.py:40`) is false:
  when INCR takes effect and EXPIRE does not, by an error or because the call was cut off between
  them, the bucket never expires (`LostExpireLingers`). `LingersIff` and `LingersIffFirstUnset` say
  exactly when.
- A `top_n` of 0 means the default (`src/rag_platform/retrieval/service.py:70`), so it is not the
  smallest: `TopNZero`, `TopNPrefixExact`. The API's schemas refuse it; the CLI passes it on.
- The limiter's bound of `limit` passes per window relies on INCR reaching Redis within the five
  seconds of TTL slack: `SlackExact` proves this condition necessary and sufficient.
- The single and the batch route check type and size in opposite orders. They differ in the
  reason given exactly for files that fail both checks (`BatchEqualsSequence`).

## Model

| member | source | states |
|---|---|---|
| LifecycleSafety.InvKept | src/rag_platform/services/ingestion.py:108-161 | every step of any interleaving keeps the joint invariant over rows, chunks, loaded copies, messages and obligations, the stored payload included |
| LifecycleSafety.InvAlways | src/rag_platform/services/ingestion.py:56-161 | the invariant holds after every run |
| LifecycleSafety.StoreFills | src/rag_platform/services/ingestion.py:135-151 | a chunk commit that passes the unique constraint leaves exactly the document's pieces, under indices 0 to n-1 and its tenant, whatever other deliveries did since the DELETE |
| LifecycleSafety.OtherRowsSame | src/rag_platform/services/ingestion.py:135-151 | no other step touches the document's chunk rows |
| LifecycleSafety.AtomicChunkSets | src/rag_platform/services/ingestion.py:130-161 | in every reachable state a document's rows are none or all of its pieces; COMPLETED implies all, with `chunk_count` equal to their number; no row outlives its document |
| LifecycleSafety.ObligationMoves | src/rag_platform/worker/tasks.py:88-126 | a step hands a document's obligation on, settles the document, or drops the obligation |
| LifecycleSafety.NoDuplicates | src/rag_platform/models.py:101-105 | in every reachable state a tenant's documents have payloads with different hashes |
| LifecycleOrigin.BornOf | src/rag_platform/services/ingestion.py:93-104 | in every reachable state a document has the tenant, type, content, size and hash of a file that an earlier step admitted under that tenant, and another inserted as this document |
| LifecycleSafety.DroppedBySome | src/rag_platform/worker/tasks.py:104-106 | a document recorded as dropped has a drop step of its own in the run |
| LifecycleSafety.NeverStuck | src/rag_platform/worker/tasks.py:15-17 | in every reachable state a non-terminal document has an upload about to enqueue it, a message, or a delivery that will move it, unless the run dropped an obligation of that very document |
| LifecycleSafety.IdleMeansTerminal | docs/adr/0005-async-ingestion.md:30-34 | in reliable runs, once uploads, queue and workers are idle, every document is completed or failed |
| LifecycleRecovery.RecoverableIff | src/rag_platform/worker/tasks.py:88-126 | in any reachable state, a document neither completed nor failed can still become so if and only if an upload, message or delivery of it is left |
| LifecycleRecovery.AlwaysRecoverable | src/rag_platform/worker/tasks.py:15-17 | after any reliable run every document is terminal or can still become so |
| LifecycleRecovery.LossIsFatalIff | src/rag_platform/worker/celery_app.py:21-26 | losing one message, delivery or upload of a document in flight leaves it stuck for good if and only if no other is left |
| LifecycleRecovery.LostMarkSticks | src/rag_platform/worker/tasks.py:104-115 | without reliability it is false, for every retry setting: a failed mark at exhaustion leaves PROCESSING with no continuation that ends it |
| LifecycleTermination.StepPays | src/rag_platform/worker/tasks.py:99-126 | every step but an admission, crash or duplicate lowers a measure over all uploads, messages and deliveries; those three raise it by a bounded amount |
| LifecycleTermination.RunsAreBounded | src/rag_platform/worker/tasks.py:99-126 | with n admissions, crashes and duplicates, a run takes at most (7 * max_retries + 13) * n other steps, deletes aside |
| LifecycleTermination.TasksCanMove | src/rag_platform/worker/tasks.py:88-126 | every upload, message and delivery always has a next step of its own that loses nothing |
| LifecycleTermination.RestMeansTerminal | src/rag_platform/worker/tasks.py:15-17 | a reliable run that cannot go on by itself has completed or failed every document |
| LifecycleTermination.ExhaustionAfterAllRetries | src/rag_platform/worker/tasks.py:104-126 | a delivery that gives up has used all `max_retries` retries, and its countdowns sum to base * (2^max_retries - 1) |
| LifecycleFinality.TerminalCanChange | src/rag_platform/api/routes/documents.py:32-34 | the comment is false: a run takes a FAILED document back to PROCESSING |
| LifecycleFinality.TerminalIsFinal | src/rag_platform/api/routes/documents.py:32-34 | with exactly-once delivery a status only climbs, and a terminal one is final |
| LifecycleFinality.SettledStep | src/rag_platform/services/ingestion.py:121-128 | a terminal document with nothing left in flight stays as it is through any step |
| LifecycleFinality.TerminalFinalIff | src/rag_platform/api/routes/documents.py:32-34 | in any reachable state, a terminal status can still change if and only if a message, delivery or upload of the document is left (other than an upload about to mark a FAILED row) |
| LifecycleFinality.DeletedForGood | src/rag_platform/api/routes/documents.py:255-261 | after a delete the row and its chunks are gone in every later state, whatever deliveries of it are still running |
| LifecycleQuota.QuotaBound | src/rag_platform/services/ingestion.py:71-105 | with at most k uploads of a tenant between sum and insert, stored plus admitted bytes never exceed limit + (k-1) * min(limit, max_upload_bytes), in any run |
| LifecycleQuota.SequentialQuota | src/rag_platform/services/ingestion.py:71-87 | one upload at a time never exceeds the quota |
| LifecycleQuotaExact.StoredFits | src/rag_platform/services/ingestion.py:71-105 | what any run has stored is a list of files with different hashes of which all but at most k - 1 fit the quota |
| LifecycleQuotaExact.StorableExact | src/rag_platform/services/ingestion.py:71-105 | with at most k uploads of a tenant between sum and insert, an amount is stored by some run if and only if such files of that total size exist |
| LifecycleQuotaExact.QuotaReached | src/rag_platform/services/ingestion.py:71-105 | the bound is reached if there are k - 1 different files of the largest size and others that fill the quota |
| LifecycleQuotaExact.QuotaExact | src/rag_platform/services/ingestion.py:71-105 | all runs keep the quota if and only if uploads of the tenant do not overlap (k = 1), or no list of files with different hashes exceeds it |
| LifecycleQuotaExact.FewFilesKeepQuota | src/rag_platform/services/ingestion.py:93-105 | the second case is real: with one hash for all files every quota is kept, whatever overlaps |
| IngestionService.EmbedAll | src/rag_platform/services/ingestion.py:203-210 | batched embedding equals embedding the whole list; a zero batch size fails |
| IngestionService.Service.Register | src/rag_platform/services/ingestion.py:56-106 | over quota, duplicate or a new PENDING row, each exactly when, with the whole new tables; for a payload the routes let through, its steps in the system, whatever other tasks there are |
| IngestionService.Service.SumSizes | src/rag_platform/services/ingestion.py:75-81 | the tenant's stored bytes |
| IngestionService.Service.MarkFailed | src/rag_platform/services/ingestion.py:187-197 | the whole new table; nothing for a deleted document |
| IngestionService.Service.RejectPayload | src/rag_platform/services/ingestion.py:152-156 | a parse error fails the row; if the mark fails the tables are as before and the exception is transient |
| IngestionService.Service.ReplaceChunks | src/rag_platform/services/ingestion.py:135-161 | the commit is the lifecycle's store step, with the new row and chunk rows stated; a fault before it leaves every table alone |
| IngestionService.Service.Attempt | src/rag_platform/services/ingestion.py:127-161 | exactly when a fault makes it transient, and the whole tables it leaves, by where the fault strikes |
| IngestionService.Service.Process | src/rag_platform/services/ingestion.py:108-170 | which outcome, exactly when, and the whole tables it leaves by where a fault strikes: as they were, PROCESSING, FAILED with the parse reason, or COMPLETED with the count, no error and the rows replaced; as a run of lifecycle steps |
| IngestionService.Service.Ingest | src/rag_platform/services/ingestion.py:172-185 | register and process in one go: refused exactly when `register` refuses; otherwise the row as inserted, and the tables an attempt at it leaves |
| IngestionService.Service.GiveUp | src/rag_platform/worker/tasks.py:104-115 | exhaustion marks the row and ends the message |
| IngestionService.Service.OnFailure | src/rag_platform/worker/tasks.py:99-126 | retry with counter and countdown, or give up, exactly by the counter |
| IngestionService.Service.ProcessOnce | src/rag_platform/worker/tasks.py:62-75 | `process` on its own engine: its outcome and its tables, exactly, and a transient failure as well if the disposal raises after the last commit |
| IngestionService.Service.IngestDocument | src/rag_platform/worker/tasks.py:88-126 | the whole tables a delivery leaves: those of its attempt, with the exhaustion mark added only if a fault struck and the counter is spent; a message to retry exactly if a fault struck and it is not; and the delivery carries any run of the system on |
| Uploads.Api.Create | src/rag_platform/api/routes/documents.py:56-62 | refused exactly when over quota or a duplicate, otherwise one new row, as lifecycle steps |
| Uploads.Api.Send | src/rag_platform/api/routes/documents.py:63-71 | enqueued, or raised and marked failed, the message in the queue or not, as lifecycle steps |
| Uploads.Api.Enqueue | src/rag_platform/api/routes/documents.py:56-71 | the new tables and queue of register, enqueue and mark, as a run of lifecycle steps |
| Uploads.Api.UploadDocument | src/rag_platform/api/routes/documents.py:40-72 | the tables, the queue and the answer of one upload |
| Uploads.Api.TakeFile | src/rag_platform/api/routes/documents.py:101-128 | the same for one file of a batch |
| Uploads.Api.UploadDocumentsBatch | src/rag_platform/api/routes/documents.py:80-133 | one line per file, in file order, with its name and either its document or its reason; accepted is the number of lines with a document, rejected that of the others |
| Uploads.PostStores | src/rag_platform/api/routes/documents.py:47-72 | what posting a file leaves and answers, case by case: the PENDING row written out and its message; the row marked failed, and the message only if it got through; or nothing, for the first reason that applies |
| Uploads.PostAllAt | src/rag_platform/api/routes/documents.py:99-128 | each file of a batch is posted to what the files before it left |
| Uploads.SourceTypeExact | src/rag_platform/ingestion/parsers.py:31-41 | which names are supported, and as what: exactly those ending in a dot and a supported extension, in any mixture of cases |
| Uploads.PostAgrees | src/rag_platform/api/routes/documents.py:52-55 | both routes leave the same state for a file; same answer unless it fails both checks |
| Uploads.BatchEqualsSequence | src/rag_platform/api/routes/documents.py:99-133 | a batch leaves the tables and queue of the files posted one by one, and answers alike except exactly for files failing both checks |
| Uploads.UploadHasNoType | src/rag_platform/ingestion/parsers.py:31-41 | neither a missing file name nor its default has a supported type |
| StatusStream.EventStream | src/rag_platform/api/routes/documents.py:211-246 | for any polls: the rows shown with adjacent equal statuses merged, then the closing event |
| StatusStream.ReportsAlternate | src/rag_platform/api/routes/documents.py:221-231 | reports never repeat side by side, begin with the first row and end with the last status |
| StatusStream.ReportsAreRows | src/rag_platform/api/routes/documents.py:221-231 | the reports are exactly the rows whose status the row before had not, in order, each with its status, chunk count and error |
| StatusStream.StreamCloses | src/rag_platform/api/routes/documents.py:217-245 | which rows are shown, and the closing event exactly when: error, done with the last status, timeout with it, or none if the client left |
| StatusStream.ClimbingIsShort | src/rag_platform/api/routes/documents.py:195-198 | rows whose status only climbs give at most one report per rank climbed |
| StatusStream.CleanStreamIsShort | src/rag_platform/api/routes/documents.py:195-198 | over any exactly-once run, deletes included, the stream reports at most three statuses |
| StatusStream.CleanDoneIsFinal | src/rag_platform/api/routes/documents.py:32-33 | over such a run the status in a `done` event is the document's status at every later point at which it exists |
| Text.WordsCut | src/rag_platform/ingestion/chunking.py:44-46 | cutting a text at whitespace keeps its words |
| Text.WordsJoinRoundTrip | src/rag_platform/ingestion/chunking.py:45 | collapsing whitespace is lossless: splitting the joined words gives them back |
| Text.StripIs | src/rag_platform/ingestion/parsers.py:102 | stripping takes whitespace off both ends and nothing else |
| Text.SplitJoins | src/rag_platform/ingestion/parsers.py:102 | cutting at newlines undoes joining lines with them |
| Text.JoinSplits | src/rag_platform/ingestion/parsers.py:102 | and joining undoes cutting |
| Chunking.TokensAreRounded | src/rag_platform/ingestion/chunking.py:24-25 | the integer estimate is the unique nearest integer to words / 0.75 |
| Chunking.SplitKeepsWords | src/rag_platform/ingestion/chunking.py:21 | the sentence split drops whitespace only |
| SentenceLaws.SeparatorIs | src/rag_platform/ingestion/chunking.py:21 | at every position the separator is the longest match of the first alternative of the expression that matches there, and none where neither does |
| SentenceLaws.SplitExact | src/rag_platform/ingestion/chunking.py:44 | a list of texts is the split if and only if it is cut by such matches and the expression matches at no position inside a piece |
| SentenceLaws.PieceYields | src/rag_platform/ingestion/chunking.py:45-58 | a blank piece yields nothing, one that fits itself collapsed, any other runs of `step` words, the last maybe shorter |
| SentenceLaws.StepIs | src/rag_platform/ingestion/chunking.py:55 | the step is three quarters of the limit rounded down, and at least one |
| SentenceLaws.SentencesKeepMeta | src/rag_platform/ingestion/chunking.py:50-58 | word by word, in order, the sentences carry the metadata of the blocks their words are from |
| Chunking.YieldRaw | src/rag_platform/ingestion/chunking.py:44-58 | one split piece: skipped, kept or hard-split |
| Chunking.Sentences | src/rag_platform/ingestion/chunking.py:42-58 | the generator yields the sentences of the specification |
| Chunking.SentencesKeepWords | src/rag_platform/ingestion/chunking.py:42-58 | sentences hold exactly the words of the blocks, in order, normalised, and none exceeds a target of at least one, hard-split pieces included |
| Packing.Packer.Overlap | src/rag_platform/ingestion/chunking.py:94-105 | the carried sentences |
| Packing.Packer.Emit | src/rag_platform/ingestion/chunking.py:85-108 | the emitted chunk and the whole new packer state |
| Packing.Packer.Take | src/rag_platform/ingestion/chunking.py:110-115 | one turn of the packing loop |
| Packing.PackSentences | src/rag_platform/ingestion/chunking.py:110-119 | the chunks are those of the computed windows |
| Packing.ChunkBlocks | src/rag_platform/ingestion/chunking.py:74-119 | refuses an overlap not below the target; otherwise the chunks of the blocks' sentences |
| Packing.PackingExact | src/rag_platform/ingestion/chunking.py:85-119 | a list of windows is the packer's if and only if it starts at the first sentence, ends at the last, fills each window greedily, and carries the longest suffix that fits the overlap (none if that is the whole chunk) |
| Packing.MergeMetaIs | src/rag_platform/ingestion/chunking.py:61-71 | a chunk's pages are the least and greatest of its sentences' pages, none if they have none; its headings are those of its first sentence, none if that has none |
| ChunkBounds.ScannedSentencesFit | src/rag_platform/ingestion/chunking.py:48-58 | for a target of at least one, every scanned sentence has between one and target tokens, as the size bounds need |
| ChunkBounds.ChunkSizeBounds | src/rag_platform/ingestion/chunking.py:110-115 | every chunk's `token_count` is at most target + overlap; a chunk above target is carried overlap and one new sentence; one that is not the last could not have taken the next sentence |
| ChunkBounds.WindowsAdvance | src/rag_platform/ingestion/chunking.py:85-119 | both ends of consecutive chunks strictly advance and leave no gap |
| ChunkBounds.StorageBound | src/rag_platform/ingestion/chunking.py:94-108 | the chunks' `token_count`s sum to at most the sentences' tokens plus overlap for each further chunk |
| ChunkBounds.TokenCountDrift | src/rag_platform/ingestion/chunking.py:87-93 | `token_count` differs from the estimate of the chunk's text by at most (n+1)/3 for n sentences |
| ChunkBounds.ChunksCoverSentences | src/rag_platform/ingestion/chunking.py:85-119 | chunks without their carried words give every sentence word, in order, once |
| ChunkBounds.CarriedIsSuffix | src/rag_platform/ingestion/chunking.py:94-106 | the carried words are the last words of the chunk before |
| ChunkBounds.ChunkIsNormal | src/rag_platform/ingestion/chunking.py:89 | a chunk's text is its words with single spaces between |
| Markdown.MatchesIff | src/rag_platform/ingestion/parsers.py:79 | a line is a heading if and only if the expression can match it, and the level is that of every match |
| Markdown.HeadingMatches | src/rag_platform/ingestion/parsers.py:79 | the title is the stripped text of a match |
| Markdown.GapIsGreedy | src/rag_platform/ingestion/parsers.py:79 | no match has its text begin later |
| Markdown.TextIsLazy | src/rag_platform/ingestion/parsers.py:79 | no match whose text begins there ends it earlier |
| Markdown.Scanner.Flush | src/rag_platform/ingestion/parsers.py:101-105 | what a flush appends and clears |
| Markdown.Scanner.PushHeading | src/rag_platform/ingestion/parsers.py:114-118 | popping leaves exactly the headings above the level, then the new one |
| Markdown.EnclosingNext | src/rag_platform/ingestion/parsers.py:116-118 | the headings enclosing the next line: those above a new heading's level and it, or no change |
| Markdown.EnclosingIncreases | src/rag_platform/ingestion/parsers.py:96-121 | enclosing levels strictly increase |
| Markdown.ParseMarkdown | src/rag_platform/ingestion/parsers.py:90-125 | the blocks are the sections that the laws below describe; an error without body text |
| MarkdownLaws.FenceIs | src/rag_platform/ingestion/parsers.py:80 | a fence line begins with three backticks or three tildes |
| MarkdownLaws.PlainMarks | src/rag_platform/ingestion/parsers.py:112 | without fence lines every line is a heading exactly if the expression makes it one |
| MarkdownLaws.FencedBlock | src/rag_platform/ingestion/parsers.py:107-120 | before a fenced block every line is read by itself, in it no line is a heading, and after it the document goes on as if it began there |
| MarkdownLaws.UnclosedFence | src/rag_platform/ingestion/parsers.py:107-120 | after a fence that is never closed no line is a heading |
| MarkdownLaws.HeadingCuts | src/rag_platform/ingestion/parsers.py:113-118 | a heading outside any fence cuts the document into the blocks before it and the blocks after it |
| MarkdownLaws.RunIsBlock | src/rag_platform/ingestion/parsers.py:101-105 | lines without a heading are one block if they hold a word: the lines joined by newlines, but for the whitespace around |
| MarkdownLaws.EnclosingIs | src/rag_platform/ingestion/parsers.py:116-118 | the headings enclosing a place are all those before it not closed by a later one of their level or above, in document order |
| MarkdownLaws.BlockPaths | src/rag_platform/ingestion/parsers.py:105 | the heading path of every block has the titles of exactly the headings enclosing its place |
| Markdown.BodyIsFiled | src/rag_platform/ingestion/parsers.py:101-121 | every word of every body line is in exactly one block, in order, under the headings enclosing its line |
| EndToEnd.NoWordLost | src/rag_platform/services/ingestion.py:199-201 | parsed, split, collapsed, hard-split and packed, the chunks without carried words read as the document's body |
| EndToEnd.ParsesIffBody | src/rag_platform/ingestion/parsers.py:123-125 | a document is refused exactly when its body has no word |
| EndToEnd.ParseAndChunk | src/rag_platform/services/ingestion.py:199-201 | which of the three outcomes, exactly when, and the chunks |
| Provenance.HeadingsAreHonest | src/rag_platform/ingestion/chunking.py:66-70 | a chunk's heading path is exactly that of the headings enclosing the line of the chunk's first word |
| StoredText.ReadPayload | src/rag_platform/services/ingestion.py:130-147 | parsing, chunking, batched embedding and the zip yield the pieces the lifecycle stores |
| StoredText.RowsAreEmbedded | src/rag_platform/services/ingestion.py:136-147 | in every reachable state each stored row of a markdown document, completed or not, has the text and token count of the payload's chunk with its index, and that text's embedding |
| StoredText.CompletedReadsAsBody | src/rag_platform/services/ingestion.py:130-151 | in every reachable state, whatever deliveries overlapped, a completed markdown document's stored rows, as many as `chunk_count`, read in index order as the body of its payload once each row's leading words, the last words of the row before, are left out |
| Ranking.SortByScore | src/rag_platform/retrieval/service.py:95 | sorting by descending score, then id |
| Ranking.RankingUnique | src/rag_platform/retrieval/service.py:95 | there is exactly one such order |
| Retrieval.Registry.Register | src/rag_platform/retrieval/service.py:120-132 | the whole new tables |
| Retrieval.RegisteredHit | src/rag_platform/retrieval/service.py:129 | an earlier hit of an id is kept, otherwise its own is filed |
| Retrieval.RegisteredScores | src/rag_platform/retrieval/service.py:130 | exactly this source's score is set, for exactly the ids found |
| Retrieval.Accumulate | src/rag_platform/retrieval/service.py:90-92 | every id gains its reciprocal-rank share and no other |
| Retrieval.Fuse | src/rag_platform/retrieval/service.py:89-94 | the accumulated map is the sum of shares over both rankings |
| Retrieval.LookupsDefined | src/rag_platform/retrieval/service.py:88-97 | in every mode the ids put in order are exactly those found, each once, and all have a hit and scores |
| Retrieval.Breakdown | src/rag_platform/retrieval/service.py:33-36 | a hybrid result names exactly the searches that found the chunk, with their scores, and the fused sum |
| Search.RetrievalService.Gather | src/rag_platform/retrieval/service.py:72-97 | the order, hits and scores before any reranking |
| Search.RetrievalService.RerankInto | src/rag_platform/retrieval/service.py:99-105 | the ordered list's texts scored in one call, filed and sorted; an error if the lengths differ |
| Search.RetrievalService.Search | src/rag_platform/retrieval/service.py:57-118 | refused exactly for a blank query; otherwise what `SearchResults.IsAnswer` says of the answer itself: every chunk found, once, under a hit a search returned for it, the dense one first, with the scores of the searches that found it, its fused and its new score; ordered by new scores, by fused scores, or as the one search ranked them; cut to the first `top_n` |
| SearchExact.AnswerUnique | src/rag_platform/retrieval/service.py:57-118 | a search has exactly one such answer |
| FusionLaws.TwoBeatOne | src/rag_platform/retrieval/service.py:92 | two shares beat one top share exactly under an integer condition on the ranks |
| FusionLaws.AgreementExact | src/rag_platform/config.py:88-90 | chunks found by both searches always precede those found by one if and only if (k_dense - 1) * (k_keyword - 1) < (rrf_k + 1)^2 |
| FusionLaws.AgreementByDefault | src/rag_platform/config.py:88-90 | in particular for rankings no longer than rrf_k + 1, as by default |
| FusionLaws.FusionRespectsOrder | src/rag_platform/retrieval/service.py:88-95 | a chunk ahead of another in every ranking holding the other precedes it |
| FusionLaws.DenseWhenKeywordEmpty | evals/README.md:90-92 | with nothing from keyword search, hybrid order is dense order |
| FusionLaws.FusionCommutes | src/rag_platform/retrieval/service.py:88-95 | swapping the rankings changes nothing |
| Search.TopNPrefixExact | src/rag_platform/retrieval/service.py:70-117 | one top_n gives a prefix of another's results in every search if and only if their effective values are in order (equal signs, or zero) |
| Search.TopNZero | src/rag_platform/retrieval/service.py:70 | a top_n of 0 returns more than 1 does |
| Search.RerankIgnoresRanks | src/rag_platform/retrieval/service.py:99-105 | with a reranker that scores texts one by one, the final order depends only on which chunks were found, though the ordered list is what it is given |
| Sse.SseEvents | frontend/src/lib/api.ts:43-67 | the parser yields the events of the concatenated reads |
| Sse.ParseFrame | frontend/src/lib/api.ts:54-65 | the event of one frame |
| Sse.DataLinesAre | frontend/src/lib/api.ts:57-60 | the data of a frame is what follows the prefix on its data lines, all of them, in order |
| Sse.NoEventIs | frontend/src/lib/api.ts:56 | without an event line the event is a message |
| Sse.LastEventIs | frontend/src/lib/api.ts:59 | otherwise it is what the last event line names, trimmed |
| Sse.TrimIs | frontend/src/lib/api.ts:59 | trimming takes white space off both ends and nothing else |
| Sse.DrainFrame | frontend/src/lib/api.ts:53-55 | a frame ends where two newlines first meet, and without that nothing is taken off the buffer |
| Sse.DrainAppend | frontend/src/lib/api.ts:50-53 | draining early or late makes no difference, so the cut into reads does not matter |
| Sse.PrefixYieldsComplete | frontend/src/lib/api.ts:48-67 | on any truncated stream, exactly the events whose frames are complete |
| Sse.RoundTrip | src/rag_platform/services/answering.py:247-250 | what the server encodes, cut anywhere into reads, comes out as it went in |
| RateLimit.RateLimiter.Check | src/rag_platform/ratelimit.py:32-47 | the new counters and the verdict; Retry-After lands on the start of the next window |
| RateLimit.CountersNeverReset | src/rag_platform/ratelimit.py:37-41 | no counter resets inside its own window, whatever Redis errors occur |
| RateLimit.VerdictExact | src/rag_platform/ratelimit.py:32-47 | the answer of every call in a timely trace, exactly, by its fault and the increments before it in its minute: an error lets it through, the first `limit` pass, the others are told to wait until the next minute |
| RateLimit.WindowBound | src/rag_platform/ratelimit.py:45-47 | at most `limit` counted passes per key and aligned minute |
| RateLimit.SlidingBound | src/rag_platform/ratelimit.py:3-6 | at most twice the limit in any sixty seconds, plus one per Redis error |
| RateLimit.SlackExact | src/rag_platform/ratelimit.py:40-41 | the window bound holds for all traces if and only if INCR runs within five seconds of the clock reading |
| RateLimit.LingersIff | src/rag_platform/ratelimit.py:37-41 | in any trace a bucket has no TTL if and only if the INCR of the call that started its counter took effect and its EXPIRE did not |
| RateLimit.LingersForever | src/rag_platform/ratelimit.py:39-41 | once so it stays so, whatever calls follow |
| RateLimit.LingersIffFirstUnset | src/rag_platform/ratelimit.py:39-41 | with calls on time: if and only if that is so of the bucket's first applied call |
| RateLimit.LostExpireLingers | src/rag_platform/ratelimit.py:40-41 | a first call whose EXPIRE fails, or is never sent, after which the bucket never gets a TTL, under any further calls |
| Citations.FindAllExact | src/rag_platform/services/answering.py:31 | the non-overlapping scan finds a number if and only if some marker anywhere in the text reads it |
| Citations.NumberOfAppend | src/rag_platform/services/answering.py:202 | a marker is read in decimal: the digits before a suffix count ten to its length times |
| Citations.NumeralReads | src/rag_platform/services/answering.py:202 | every number reads back from its decimal numeral |
| Citations.AvailableLast | src/rag_platform/services/answering.py:203 | of citations with one marker the last is found under it |
| Citations.CitedOnly | src/rag_platform/services/answering.py:199-208 | exactly the offered citations whose marker occurs, once each, ascending |
| Citations.FilterExact | src/rag_platform/services/answering.py:115-125 | on citations numbered 1, 2, ... the filter's contract has one solution |
| Citations.Prepare | src/rag_platform/services/answering.py:115-125 | the citations are numbered from 1 in the order of the passages, each with its passage and a snippet of at most 200 characters |
| Citations.PlainMarkerIsCited | src/rag_platform/services/answering.py:199-208 | an answer that holds the printed marker of an offered citation cites it |

## Left out

- PDF and HTML extraction, and UTF-8 decoding: foreign libraries. A document is its lines here;
  `splitlines` is not modelled. In the lifecycle, parse, chunk and embed are one function of type and
  payload (`Config.pieces`); that embeddings come one per chunk is assumed there.
- SQL, vector and full-text ranking: each search is a list of hits without repeated ids; nothing is
  claimed about recall. The mode is one of the three literals.
- Embedding, rerank and language-model providers: deterministic functions. A reranker maps a query
  and a list of texts to a list of scores.
- JSON: a payload is one-line text, as `json.dumps` makes it; parsing it back is not modelled.
- SHA-256: a function from payloads to numbers, of which nothing else is known.
- IngestionService.Service.Ingest: a CLI ingest is no task of the step system. If it fails
  transiently or dies it leaves its row PENDING or PROCESSING with no message, which `NeverStuck`
  and `RecoverableIff` do not speak of.
- Authentication, usage accounting, metrics, health checks, command line, migrations and UI.
- Message texts: `mark_failed` records a reason, without the text and its cut at 500 characters.
- The missing-tenant error of `register`: the routes' authentication and the CLI's lookup rule it out.
- Timing: backoff is added up, not waited for; the stream's deadline and disconnect are inputs; a
  limiter's EXPIRE runs in the second of its INCR.
- Float rounding: scores are reals; `round(w / 0.75)` is the exact nearest integer.
- Negative settings for retries, fusion constant and search sizes.
- `int` of a citation marker: Python refuses numbers of more than 4300 digits; here they have a value.
- IngestionService.Service.MarkFailed: a row deleted between its read and its write raises in the ORM; in
  the lifecycle that write has no effect, since the document is gone.
- Chunking.Sentences: the generator's laziness; its output is a list.
- Citations.Prepare: the prompt built beside the citations, and the early return when nothing was found.
- Uploads.UploadHasNoType: lower-casing covers ASCII capitals and the Kelvin sign, the only characters
  whose lower case can matter for the supported suffixes.
- Uploads.BatchEqualsSequence: unexpected errors, which abort a batch request, do not occur.
- LifecycleTermination.RunsAreBounded: deletes are not counted as work.
