# Tabulark: models of its protocols, indexes and budgets

Tabulark opens large tabular sources in a Worker and serves rectangular ranges of them. This project models the parts
of it where correctness depends on many functions together, and proves for all inputs and all runs what they promise.
Code that updates objects is a Dafny class with the same fields and loops; each such method is proved equal to a step of a
specification on values, and the theorems are about those steps and about whole runs of them.

## Components

**Arrow IPC Stream framing** (`StreamWire`, `StreamReference`, `StreamTotals`, `StreamValidator`). `StreamWireValidator` receives a stream in
arbitrary chunks, never keeps a body, and still charges the declared size of every compressed buffer by collecting the 8-byte
prefixes as they pass. `StreamReference.Parse` is the independent reference: a recursive parser of the whole byte string that
reads a message at a time. Both accept the same byte strings and end with the same totals, for every chunking. `StreamTotals`
says which messages that parser accepts and what its totals are, as sums over the messages of the stream.

**CSV scan and range read** (`CsvReader`, `CsvText`, `CsvScan`, `CsvScanner`, `CsvRange`, `CsvBatchLimit`, `CsvStrict`, `CsvDecoder`,
`StringColumn`). The reference is `CsvReader.PlainBytes`, a plain parse of the whole source by a byte automaton for section 2
of RFC 4180 with lenient handling of stray quotes. The scanner's sparse index is a function of that parse, a fresh decoder
started at a checkpoint reads the rows of that parse, and a completed batch holds exactly the requested cells.
`ReadRange` closes the loop: for a source that the scanner accepts, in strict and in lenient mode, it succeeds exactly if the
plan is valid and the requested range, encoded with one offset a column more than it has rows, fits the batch limit. What it
answers passes the host's validation and decodes there to the reference cells, but for a byte order mark at the beginning of a
cell, which the host's text decoder drops.

**Worker lifecycle** (`WorkerState`, `WorkerSteps`, `WorkerRuns`, `WorkerEffects`, `WorkerStages`, `WorkerLifecycle`). Requests, datasets, tables,
adapter operation handles and source slots, with every synchronous segment between two awaits as one event. The class
`Worker` carries the mutually recursive `cancelActive`, `closeTableState` and `closeDatasetState`; the recursion terminates
because uncancelled requests plus open datasets and tables decrease, and it refines one-step specifications.

**Memory** (`MemoryBudget`, `OperationReads`, `StagingLimiter`, `RangeCache`, `CacheKeys`, `MemoryCeiling`). The budget split, the
Worker's ledger and its use by an operation step, the staging limiter, the byte-bounded cache that shares its slice with
retained sources, the JSON keys of that cache, and all of these together in one state machine: an engine that can be created
never exceeds its budget.

**Arrow sources** (`ArrowRange`, `ArrowSource`, `ArrowStreamRead`, `ArrowFileIndex`, `ArrowFileRead`, `ArrowRegistry`). Stream
reads over row offsets and File reads over footer-indexed blocks return the same thing, the range of the flattened batches;
stream deltas published one by one build the source that all batches build at once; the File index does not depend on how
metadata requests are batched; the handle registry keeps its byte account over all call sequences.

**Typed batches** (`BufferPool`, `DisplayText`, `DisplayBudget`, `DisplayDecode`). The deduplicating pool for any hash function,
the two ways of cutting preview text (plain values are truncated, nested ones go through a bounded escaping writer), the
equal-share display budget that never runs out once the structural bytes fit, and what the host reads from the stored previews.

**Calls between the threads** (`RpcClient`, `Singleflight`, `PermitQueue`). Pending calls settle at most once, callers of one range
share one request until the last of them leaves, and the queue of range permits is never full.

`Common`, `Totals` and `RangeRequests` hold shared values: bytes, results, error codes, totals of finite maps and requests.

## What the code does where one might expect otherwise

* `WorkerRuns.AHandleCanBeDropped` and `ARefusedStepIsDropped`: an adapter operation handle can become unreachable without
  having been completed or cancelled. It happens when an open fails while it alone owns its operation, as when the first
  published step names no source handle; when the first step of any call is refused (more than 32 actions, a repeated
  action index, a revision of zero), because that check stands in front of the `try` block and of the assignment of the
  handle; and when a request is cancelled between the answer to its `begin` call and the moment it takes the answer over.
  `WorkerRuns.DroppedExactlyWhen` gives the exact condition, in terms of the state before the step.
* `StringColumn.ValidatedDecodes`: `validateDisplay` does not look at the bit offset of the validity bitmap, so that a column
  which passes it can still fail to decode (`AValidatedColumnFails`); the lemma says exactly when. The columns of the CSV adapter
  have no bit offset.
* `CsvDecoder.AnswersDecode` and `AMarkIsLost`: the host decodes each cell with a `TextDecoder` that ignores a leading byte order
  mark, so that a cell whose text begins with U+FEFF shows without it, although the adapter has kept it. All other cells show as
  they are.
* `MemoryCeiling.WorkerCeilingExactlyWhenSplit`: the Worker's own `hello` accepts budgets below 8 MiB, which `createEngine` refuses.
  There its ledger takes the whole budget and the caches of the source slots come on top; the lemma says exactly when a Worker
  stays within the budget it is given.
* `CsvReader.TailIsFresh` covers a checkpoint that falls between the CR and the LF of one terminator: the scanner records the
  offset behind the byte that ended the record, and the automaton skips the LF.

## Model

| member | source | states |
|---|---|---|
| StreamReference.AcceptsExactlyTheFormat | src/arrow.rs:891-1240 | feed in any chunks, then finish, accepts a byte string exactly if the recursive whole-buffer parser accepts it and a schema was seen; the totals (declared bytes, retained record and dictionary bytes, per-id dictionary sizes) are the parser's |
| StreamReference.ChunkingIsIrrelevant | src/arrow.rs:891-1097 | from every framing state, feeding chunks one after the other gives the state, or the error, of feeding them joined |
| StreamReference.FeedIsParse | src/arrow.rs:891-1097 | feeding all bytes from a message boundary reaches what parsing message by message reaches, or both fail |
| StreamReference.HeaderIsParse | src/arrow.rs:903-947 | the 4-byte or 8-byte prefix leads the state machine where the parser goes: end of stream, too long metadata, File magic or a message |
| StreamReference.WholeBody | src/arrow.rs:1005-1085 | a body taken in one fragment charges exactly what the one-shot preflight of that body charges and leaves no prefix open |
| StreamWire.FeedConcat | src/arrow.rs:891-1097 | cutting the input anywhere, also inside a prefix, metadata or a body, changes neither the state nor the error |
| StreamWire.TakeConcat | src/arrow.rs:903-1085 | inside one framing state, taking a piece in two parts equals taking it at once, and the bytes still wanted go down by the first part |
| StreamWire.AccountConcat | src/arrow.rs:1005-1085 | accounting two neighbouring body fragments in turn equals accounting their concatenation, errors included |
| StreamWire.FragmentedBodyIsPreflight | src/arrow.rs:1005-1085 | for every fragmentation of a compressed body the incremental prefixes give the declared total, or the error, of the one-shot preflight, and at the end every buffer is accounted for |
| StreamWire.NothingLeftOpen | src/arrow.rs:1075-1081 | when the body has passed the prefix of every buffer, no buffer is unaccounted: the "ended before a buffer prefix" error cannot occur |
| StreamWire.AccountTotals | src/arrow.rs:1005-1085 | the declared total never goes down, moves by exactly what the body declares, and stays within the limit once it is within it |
| StreamWire.SpecsOf | src/arrow.rs:3125-3207 | the accepted buffer list lies inside the body, in order and without overlap |
| StreamWire.AdjacentIsPairwise | src/arrow.rs:3188-3206 | comparing neighbours after sorting rules out every overlap |
| StreamWire.SortKeepsElements | src/arrow.rs:3188 | sorting by offset keeps the buffers as a multiset |
| StreamWire.Validate | src/arrow.rs:3015-3123 | accepted metadata has placed buffers, a block within the block limit, and no buffers to charge if it is not compressed |
| StreamWire.AccountWholeBody | src/arrow.rs:3250-3308 | the incremental account of a whole body and the block preflight agree in total and in error |
| StreamTotals.ValidExactlyWhen | src/arrow.rs:3015-3123 | a message is accepted exactly if the first one is a native schema and no other is, no tensor comes, batches and dictionaries are complete, the block fits, and all compressed buffers that hold bytes lie in the body and apart, in whatever order they are listed |
| StreamTotals.ValidatedIs | src/arrow.rs:3079-3114 | what is charged, and to whom: schema, kind, dictionary id, delta and compression are those of the header |
| StreamTotals.SpecsExactlyWhen | src/arrow.rs:3125-3207 | the compressed buffer index is accepted exactly for entries in the body that are pairwise apart |
| StreamTotals.ChargesEveryEntry | src/arrow.rs:3125-3207 | every entry that holds bytes is charged as often as it is listed, and nothing else is |
| StreamTotals.DeclaredExactly | src/arrow.rs:3209-3225 | a prefix is a size exactly if it is -1, which stands for the stored length, or a non-negative signed number that the machine has |
| StreamTotals.PreflightIsSum | src/arrow.rs:3250-3308 | a body is accepted exactly if every prefix is a size and the declared total with all of them is within the limit, and that is the new total |
| StreamTotals.DictionariesKeep | src/arrow.rs:1121-1142 | over any list of completed messages, the size kept for an id is its last replacement plus all deltas after it, or, without one, the deltas on top of what there was; other ids do not move |
| StreamTotals.RetainedAreSums | src/arrow.rs:1101-1142 | retained record and dictionary bytes are the sums of the decoded sizes of their own kind; messages of no kind change nothing |
| StreamTotals.CompletesExactlyWhen | src/arrow.rs:1101-1142 | the messages complete exactly if both sums are numbers that the machine has |
| StreamTotals.StreamKeeps | src/arrow.rs:891-1142 | the totals of a whole stream, in terms of the messages read off its bytes: declared bytes, retained records and dictionaries, and what each dictionary keeps |
| StreamValidator.StreamWireValidator.CopyPrefix | src/arrow.rs:1030-1045 | copies exactly the part of the 8-byte prefix that the fragment overlaps |
| StreamValidator.StreamWireValidator.ChargeBuffer | src/arrow.rs:1020-1062 | one pending buffer grows its prefix, and is charged exactly once it is complete |
| StreamValidator.StreamWireValidator.AccountBody | src/arrow.rs:1005-1085 | the loop over pending buffers computes the specified account, in place, or fails with its error |
| StreamValidator.StreamWireValidator.RecordCompletedMessage | src/arrow.rs:1100-1150 | retained record and dictionary bytes move as specified for records, dictionaries, deltas and replacements (what that comes to is `StreamTotals.DictionariesKeep` and `RetainedAreSums`); on an error nothing moves |
| StreamValidator.StreamWireValidator.FeedChunk | src/arrow.rs:891-1097 | the loop over a chunk reaches the specified framing state or its error |
| StreamValidator.StreamWireValidator.FinishStream | src/arrow.rs:1224-1240 | ends well only between messages or after the end-of-stream marker, and only after a schema |
| StreamValidator.ValidateStream | src/arrow.rs:891-1240 | the class, driven over all chunks and finished, accepts exactly what the reference parser accepts and holds its totals |
| CsvReader.TailIsFresh | src/csv.rs:704-739 | after a record end, also between CR and LF, the automaton behaves like a fresh one on the remaining bytes |
| CsvReader.StartsAreBoundaries | src/csv.rs:737-739 | every recorded row start is an offset behind a record-ending byte at which the parse is between records |
| CsvReader.RowsFromStart | src/csv.rs:495-534 | a fresh parse from the start of row i yields exactly the rows from i on, up to the end of the source |
| CsvReader.PlainConcat | src/csv.rs:559-616 | the plain parse of two parts in turn is the parse of both |
| CsvReader.TrackConcat | src/csv.rs:1350-1400 | the quote tracker finds the same malformed bytes and ends in the same state for every cut |
| CsvReader.WrittenFileReadsBack | src/csv.rs:1410-1414 | rows of arbitrary bytes written with quotes, doubled quotes and CRLF read back as themselves |
| CsvText.AnyTextReadsBack | src/csv.rs:1410-1425 | text written with quoted and bare fields in any mixture, rows ended by LF, CR or CRLF, the last one ended or not, is read as its fields |
| CsvText.BlankLinesAreSkipped | src/csv.rs:1410-1425 | blank lines, and the LF of a CRLF, are no rows |
| CsvReader.ReadField | src/csv.rs:566-610 | a read consumes at least one byte, writes no more than the output has room for, and reports an exhausted input only when it is |
| CsvScan.ScanBuildsIndex | src/csv.rs:559-616 | scanning bytes on from the index of an accepted parse gives the index of the longer parse (rows, columns, names, schema version, checkpoints, offsets, issues), or fails exactly if that parse breaks a limit or, in strict mode, has an issue |
| CsvScan.EndBuildsIndex | src/csv.rs:618-652 | the same for the end of the source, which closes an open record |
| CsvScan.CheckpointsInRange | src/csv.rs:711-716 | checkpoints stand at exactly the multiples of the interval below the number of rows |
| CsvScan.WidenKeeps | src/csv.rs:717-775 | a row of another width is reported once; a wider one adds exactly the missing columns and one schema version |
| CsvScan.AdmitsEarlier | src/csv.rs:559-616 | a parse that is accepted was accepted at every earlier byte |
| CsvScanner.ReadFieldIsScan | src/csv.rs:566-610 | one pass of the reader loop, with any scratch size, does what scanning its bytes one by one does |
| CsvScanner.TrackerFollowsReader | src/csv.rs:1350-1407 | reader and quote tracker never disagree about being inside a quoted field |
| CsvScanner.ReportsAreStray | src/csv.rs:1350-1400 | the tracker reports exactly the stray bytes, in order: a quote inside a bare field, or text behind a closing quote |
| CsvScanner.UnclosedIsOpenField | src/csv.rs:618-632 | a quote is reported unclosed at the end exactly when the reader closes a quoted field there |
| CsvScanner.CsvScanner.EndField | src/csv.rs:669-702 | one field end does to the scanner what the specification does, in place |
| CsvScanner.CsvScanner.EndRecordRow | src/csv.rs:704-739 | one record end does to the scanner what the specification does, in place |
| CsvScanner.CsvScanner.EnsureColumnsTo | src/csv.rs:741-775 | columns only grow, are named as specified, and growing raises the schema version |
| CsvScanner.CsvScanner.WidenSchema | src/csv.rs:717-733 | the schema check of a data row does to the scanner what the specification does, in place |
| CsvScanner.CsvScanner.ReadChunk | src/csv.rs:559-616 | the reader loop scans the whole chunk; its parser-offset check cannot fail |
| CsvScanner.CsvScanner.ResolveBom | src/csv.rs:361-396 | a byte order mark, or the prefix of one, split across chunks in any way is skipped or read as data exactly as in one piece |
| CsvScanner.CsvScanner.Finish | src/csv.rs:618-652 | succeeds exactly if the whole source is accepted, with the index of the whole source |
| CsvScanner.CsvScanner.FeedChunk | src/csv.rs:332-408 | a wrong offset or a finished scanner changes nothing; otherwise the chunk is taken exactly if the bytes so far are accepted, and the invariant ties the whole state to those bytes alone, not to the chunks |
| CsvScanner.ScanSource | src/csv.rs:1164-1198 | for every chunking the scan succeeds exactly if the joined source is accepted, and leaves its index |
| CsvRange.PlanSkipsModulo | src/csv.rs:495-526 | a plan starts at a recorded checkpoint not behind the request; rows to skip are the row start modulo the interval for indexed rows; the offset is where that row starts in the plain parse |
| CsvRange.PlannedExactlyWhen | src/csv.rs:495-560 | a plan is given if and only if both ends are safe integers, the cells are within u64 and the cell limit, the columns are known, and the first row is known or there is none to read; only for a row that is still to come is the error that it is not indexed |
| CsvRange.CellShows | src/csv.rs:1040-1062 | valid text is shown as it is, other text decoded, and a field that the row does not have not at all |
| CsvRange.UpToIsNearest | src/csv.rs:505-519 | the partition point of the checkpoints is the nearest predecessor |
| CsvRange.NearestCheckpoint | src/csv.rs:505-519 | the checkpoint chosen is the last one not behind the row, and never behind the last row |
| CsvRange.ReadFieldIsDecode | src/csv.rs:920-960 | one pass of the decoder's reader loop does what decoding its bytes one by one does |
| CsvRange.BytesDecode | src/csv.rs:898-972 | decoding bytes after a checkpoint keeps every decoder field equal to its value for the fresh parse of the bytes consumed, and stops early only when the range is complete |
| CsvRange.RowDecodes | src/csv.rs:1066-1108 | a row end pushes the selected cells of requested rows, absent ones as null, and no cell of other rows |
| CsvRange.PushBuilds | src/csv.rs:1079-1094 | pushing one row keeps each builder equal to the column of the rows so far and the batch bytes equal to the exact encoded sum over all columns |
| CsvRange.EndDecodes | src/csv.rs:974-1010 | the end of the source closes an open row like a terminator |
| CsvRange.CompleteIsStable | src/csv.rs:1092-1108 | rows behind a complete range do not change the batch |
| CsvBatchLimit.RowSucceeds | src/csv.rs:1066-1108 | in lenient mode a row is refused exactly if the batch with it exceeds the batch limit or the u32 offsets |
| CsvBatchLimit.BytesSucceed | src/csv.rs:898-972 | lenient decoding of accepted bytes fails exactly if their requested rows do not fit the batch |
| CsvBatchLimit.AllSucceeds | src/csv.rs:898-1010 | the same up to the end of the source |
| CsvBatchLimit.AllConcat | src/csv.rs:898-972 | a chunk that does not complete the range leaves success and failure to the bytes after it |
| CsvStrict.NoRowIssues | src/csv.rs:704-739 | rows without an issue all have the width of the first row and valid text |
| CsvStrict.AllAlike | src/csv.rs:1026-1124 | on such rows the strict decoder does exactly what the lenient one does |
| CsvStrict.QuietFromRow | src/csv.rs:1335-1407 | a source without quote issues has none either when the tracker starts afresh at any row start |
| CsvDecoder.PlanStart | src/csv.rs:495-534 | the index of any scanned prefix sends a reader to an offset from which a fresh parse gives the rows of the whole source from the planned row on, without quote issues if the source is strictly accepted |
| CsvDecoder.RangeDecoder.Create | src/csv.rs:828-870 | a decoder is refused exactly if four bytes a column exceed the batch limit, also for a range that will hold no row |
| CsvDecoder.RangeAnswered | src/csv.rs:898-1010 | a batch that is complete before the end of the source is the batch of all of the source |
| CsvDecoder.StrictWidth | src/csv.rs:528-534 | in strict mode every scanned prefix with a data row already has the width of all rows |
| CsvDecoder.StartSucceeds | src/csv.rs:1212-1244 | decoding from the planned checkpoint of an accepted source succeeds, leniently, exactly if the requested cells, encoded, fit the batch |
| CsvDecoder.StrictStartSucceeds | src/csv.rs:1212-1244 | and the same in strict mode |
| CsvDecoder.RangeDecoder.PushRow | src/csv.rs:1079-1094 | the loop over the builders pushes all cells of the row, or stops at the first that does not fit |
| CsvDecoder.RangeDecoder.EndRecordRow | src/csv.rs:1066-1108 | one record end does to the decoder what the specification does, in place |
| CsvDecoder.RangeDecoder.FinishEof | src/csv.rs:974-1010 | at the end the batch is that of the plain parse of all bytes fed; an unclosed quote fails in strict mode |
| CsvDecoder.RangeDecoder.FeedChunk | src/csv.rs:898-972 | for every chunking a completed batch is that of the plain parse of the bytes fed; a done decoder or a wrong offset changes nothing; success is characterised in both modes |
| CsvDecoder.ReadRange | src/csv.rs:1212-1244 | an answer holds exactly the requested cells of the plain parse of the whole source, for every scan progress and chunk size; for an accepted source, strict or lenient, it is given if and only if the numbers of the request, its cells, its columns and its first row are within what the source and the limits allow, and the encoded range, its offsets included, fits the batch and the u32 offsets |
| CsvDecoder.NoRowsFit | src/csv.rs:840-850 | a range without rows fits exactly if four bytes a column do |
| CsvDecoder.AnswersDecode | js/model.ts:627-645 | end to end: every column of an answer passes the host's validation, and a cell decodes to the reference cell if and only if that does not begin with a byte order mark, which the text decoder drops |
| CsvDecoder.AMarkIsLost | js/model.ts:644 | for every text: a cell that holds it behind a byte order mark is read exactly, and shows on the host without the mark |
| CsvDecoder.WrittenRowsAreRead | src/csv.rs:362-380 | a file written from rows, whatever bytes they hold, is read as those rows: the mark at its start that would be skipped is not there |
| CsvDecoder.DecodeFrom | src/csv.rs:1219-1243 | the feeding loop ends with the answer for the source, or fails exactly if decoding all bytes at once fails |
| StringColumn.PushHolds | src/csv.rs:1267-1313 | a pushed value becomes the next cell and no earlier cell changes: texts, offsets, validity bits and null count |
| StringColumn.PushBitKeeps | src/csv.rs:1290-1300 | setting one validity bit, LSB first, leaves all others as they are |
| StringColumn.PushBytesAreExact | src/csv.rs:1267-1284 | the bytes charged for a push are exactly what the encoded column grows by |
| StringColumn.EncodedIsSize | src/csv.rs:1256-1318 | what is charged for a column is its text, four bytes an offset and the bitmap |
| StringColumn.StringColumnBuilder.Push | src/csv.rs:1267-1313 | succeeds exactly if batch limit and u32 offsets allow it; then the column holds one more value and the charge is the exact growth |
| StringColumn.ValidateDisplay | js/model.ts:862-889 | accepts exactly the columns with enough offsets and validity bytes, from their display offset on, whose offsets are readable, ordered and within the data |
| StringColumn.ValidatedDecodes | js/model.ts:1343-1355 | a validated column decodes without an error in every row if and only if its bitmap reaches as far as its bit offset, which validation does not look at, moves the last row |
| StringColumn.AValidatedColumnFails | js/model.ts:862-889 | a column that passes validation and does not decode |
| StringColumn.HeldCellsDecode | js/model.ts:627-645 | every cell of a built column decodes to the value pushed without a leading byte order mark, and to the value itself if and only if there is none |
| StringColumn.LosesOnlyTheMark | js/model.ts:19 | the text decoder changes exactly the texts that begin with a byte order mark, and takes nothing but the mark |
| StringColumn.HeldOffsetsAreOrdered | js/model.ts:862-889 | a built column meets everything `validateDisplay` asks |
| StringColumn.BuildColumn | src/csv.rs:1256-1318 | building a column from any values holds those values, within the limit, and fails only if they do not fit |
| StringColumn.DecodeColumn | js/model.ts:627-645 | reading a built column row by row returns the values it was built from, each without a leading byte order mark, and exactly them if and only if none begins with one |
| WorkerState.CloseDatasetKeeps | js/worker.ts:1885-1949 | closing a dataset keeps the invariant; no table of it stays open and no active request of it uncancelled |
| WorkerState.CloseTableKeeps | js/worker.ts:1853-1883 | closing a table keeps the invariant |
| WorkerState.CancelRequestKeeps | js/worker.ts:1791-1835 | cancelling a request, with its dataset if it is an open, keeps the invariant and leaves it cancelled |
| WorkerSteps.StepKeeps | js/worker.ts:460-2941 | every event that is enabled keeps the invariant: handles owned by live requests or datasets, slots held by open datasets and opens, nothing cancelled or closed twice |
| WorkerSteps.ReserveKeeps | js/worker.ts:1492-1521 | reserving a slot counts it for the open request, or refuses it at the maximum |
| WorkerSteps.AnswerKeeps | js/worker.ts:1605-1693 | an answer to a cancelled request is reclaimed once, source included; an answer in time is kept for its request |
| WorkerSteps.ResumeKeeps | js/worker.ts:1605-1640 | taking a first step over hands its handle to the request, unless the request was cancelled |
| WorkerSteps.RefuseKeeps | js/worker.ts:2857-2903 | a first step that is refused before its handle is taken over keeps the invariant |
| WorkerSteps.FailStepKeeps | js/worker.ts:2555-2644 | a failed run cancels the handle it owns once, also when the failure has closed the dataset first |
| WorkerSteps.PublishKeeps | js/worker.ts:602-645 | publishing a dataset moves the slot to it and shares the scan handle with the open request |
| WorkerSteps.ScanDoneKeeps | js/worker.ts:1124-1202 | the end of the scan takes the handle from the dataset |
| WorkerSteps.FailOpenKeeps | js/worker.ts:650-667 | the `finally` of a failed open closes the dataset or the source, and gives the slot back once |
| WorkerRuns.EveryRun | js/worker.ts:460-2941 | in every run no handle is cancelled twice and no source or table closed twice; slots in use are exactly those of open datasets and of opens that hold one, and never exceed the maximum; a dataset is closed exactly if the adapter's source is |
| WorkerRuns.ClosedHasNothingLeft | js/worker.ts:1885-1949 | a closed dataset has no open table, no uncancelled active request, no scan handle and no slot |
| WorkerRuns.ClosedForGood | js/worker.ts:1885-1949 | and so it stays through every later run |
| WorkerRuns.StepSettles | js/worker.ts:1791-1949 | cancelled requests, closed datasets and tables, and handles that were cancelled or finished stay so |
| WorkerRuns.StepOwners | js/worker.ts:1605-2941 | every handle that was given out has exactly the owner the Worker's objects say, after every step |
| WorkerRuns.NothingLeaksAtRest | js/worker.ts:460-668 | with no active request and every dataset closed, no slot is in use and every handle is cancelled, finished or dropped |
| WorkerRuns.DroppedExactlyWhen | js/worker.ts:579-668 | a handle is dropped by a step if and only if the step throws away the answer of a request cancelled meanwhile, refuses the first step in an answer, or fails an open that alone owns the handle |
| WorkerRuns.AHandleCanBeDropped | js/worker.ts:596-598 | a run in which an open whose first published step names no source handle leaves its operation neither cancelled nor finished |
| WorkerRuns.ARefusedStepIsDropped | js/worker.ts:2563 | from every state with an open table, a call on it whose first step is refused (js/worker.ts:2607 for the other calls) ends with the handle neither cancelled nor finished, although nobody cancelled it |
| WorkerEffects.CloseTableMessageCloses | js/worker.ts:1435-1445 | a message for an open table closes it, stops every active request on it and cancels the handles they own; no other table, dataset, slot, request or handle changes; for any other table nothing does |
| WorkerEffects.CloseSourceMessageCloses | js/worker.ts:1448-1459 | the same for a dataset, with its tables, its scan and its slot |
| WorkerEffects.CancelMessageCancels | js/worker.ts:1412-1433 | a cancel message stops the active request it names, closes the dataset of an open that has one, closes an open dataset whose open has ended, and otherwise does nothing |
| WorkerEffects.ClosedTableStays | js/worker.ts:1435-1445 | in every later run the table stays closed, its requests cancelled and their handles cancelled |
| WorkerEffects.ClosedDatasetStays | js/worker.ts:1412-1459 | the same for a dataset, closed by either message |
| WorkerEffects.RequestStarts | js/worker.ts:428-450 | a new request is active, holds nothing and is about what was asked |
| WorkerEffects.SlotIsReserved | js/worker.ts:1492-1521 | an open gets a slot exactly if one is free, and otherwise ends there |
| WorkerEffects.CallIsBegun | js/worker.ts:1627-1640 | a call that is made waits for its answer, and nothing else changes |
| WorkerEffects.AnswerIsKept | js/worker.ts:1627-1693 | an answer in time waits for its request; a late one is cancelled, and the source that it brings is closed |
| WorkerEffects.AnswerIsTaken | js/worker.ts:2555-2597 | a request that takes its answer over owns the handle; one that was cancelled meanwhile, or refuses it, leaves it behind |
| WorkerEffects.OperationCompletes | js/worker.ts:2555-2644 | a run that ends well finishes its handle and lets go of it |
| WorkerEffects.OperationFails | js/worker.ts:2555-2644 | a run that fails cancels its handle; one whose source has changed closes the dataset |
| WorkerEffects.DatasetIsPublished | js/worker.ts:579-668 | publishing opens the dataset, gives it the slot of the open and, while it scans, the handle |
| WorkerEffects.ScanIsDone | js/worker.ts:1124-1155 | the end of the scan finishes the handle, which nobody holds any more |
| WorkerEffects.OpenIsFinished | js/worker.ts:579-668 | an open that has succeeded leaves its handle to the dataset |
| WorkerEffects.OpenFails | js/worker.ts:640-668 | an open that fails closes its dataset, or its source if it has none, and gives its slot back |
| WorkerEffects.TableIsPublished | js/worker.ts:763-880 | a table that is published is open and belongs to the dataset of its request |
| WorkerEffects.CallEnds | js/worker.ts:312-360 | a request that ends is no longer active, and nothing else changes |
| WorkerStages.StagesCloseDataset | js/worker.ts:1885-1949 | taking the scan handle, closing the tables one by one and cancelling the requests one by one is closing the dataset in one step, in any order |
| WorkerStages.CancelThenClose | js/worker.ts:1791-1835 | an open that is marked cancelled before its dataset closes reaches what closing alone reaches |
| WorkerStages.ScanGoneHandles | js/worker.ts:1885-1912 | taking the scan handle leaves fewer live objects than before: the first step of the termination argument |
| WorkerStages.TableClosingStep | js/worker.ts:1866-1874 | cancelling one more request of a table is one more stage of closing it |
| WorkerLifecycle.Worker.CancelActive | js/worker.ts:1791-1835 | the recursive cancel ends and does what cancelling in one step does |
| WorkerLifecycle.Worker.CloseTableState | js/worker.ts:1853-1883 | the recursive table close ends and does what closing in one step does |
| WorkerLifecycle.Worker.CloseDatasetState | js/worker.ts:1885-1949 | the recursive dataset close ends and does what closing in one step does |
| WorkerLifecycle.Worker.CancelOwnedOperation | js/worker.ts:2926-2941 | the handle leaves the request before the adapter cancels it, so it is cancelled once |
| WorkerLifecycle.Worker.ReserveSourceSlot | js/worker.ts:1492-1521 | reserves exactly if a slot is free, and is the event of the step model |
| WorkerLifecycle.Worker.TakeAnswer | js/worker.ts:1605-1693 | an answer to a `begin` call, late or in time, is the event of the step model |
| WorkerLifecycle.Worker.RefuseOperation | js/worker.ts:2857-2903 | the refusal of a first step is the event of the step model |
| WorkerLifecycle.Worker.FailOperation | js/worker.ts:2555-2644 | the failing run of a request is the event of the step model |
| WorkerLifecycle.Worker.PublishDataset | js/worker.ts:602-645 | publishing the dataset is the event of the step model |
| WorkerLifecycle.Worker.FailOpening | js/worker.ts:650-667 | the `finally` of `openSource` is the event of the step model |
| WorkerLifecycle.Worker.Cancel | js/worker.ts:1412-1433 | a cancel message is the event of the step model, and answers whether it found something to cancel |
| WorkerLifecycle.Worker.Handle | js/worker.ts:261-2941 | every event, handled by the object's methods, is the step of the model, whose effects `WorkerEffects` states, and keeps the invariant |
| WorkerLifecycle.Worker.Shutdown | js/worker.ts:1461-1490 | shutting down is a run of cancels and closes after which every request is cancelled and every dataset and table closed |
| MemoryBudget.SlicesFitExactlyWhenSplit | js/model.ts:49-88 | for every positive safe integer, also where the product of the split rounds as a double: ledger, source caches, staging and retained slice fit the budget if and only if it is at least 8 MiB |
| MemoryBudget.SlicesAre | js/model.ts:49-88 | slice by slice: three quarters for the Worker, an eighth of that for source caches and the rest for the ledger, an eighth for staging, the rest for retained batches |
| MemoryBudget.ReserveKeeps | js/model.ts:124-148 | a reservation is given exactly if it fits, and used bytes stay the sum of the live reservations |
| MemoryBudget.ReservationReleaseKeeps | js/model.ts:124-148 | a release gives back exactly what was reserved, and a second one nothing |
| MemoryBudget.ReleasesCommute | js/model.ts:124-148 | releases may come in any order |
| MemoryBudget.MemoryReservationLedger.Reserve | js/model.ts:124-148 | adds exactly the bytes or changes nothing |
| MemoryBudget.MemoryReservationLedger.Release | js/model.ts:136-146 | the closure of one reservation, idempotent |
| OperationReads.ReleasesLeaveTheOthers | js/worker.ts:2794-2797 | releasing any list of reservations, some twice, leaves exactly the others and their sum |
| OperationReads.OthersLeaveOurs | js/worker.ts:2709-2797 | what others do with the ledger leaves the reservations of the step as they are |
| OperationReads.CheckActions | js/worker.ts:2668-2702 | the pass over the actions succeeds exactly if each lies inside the source and their sum is a safe integer within the read limit |
| OperationReads.OperationStep.Admit | js/worker.ts:2709-2719 | all actions of a step are reserved, or, if they do not fit together, none stays reserved |
| OperationReads.OperationStep.TakeBuffers | js/worker.ts:2742-2770 | wherever the buffer loop stops, every reservation is in one of the two lists that `finally` releases |
| OperationReads.OperationStep.Advance | js/worker.ts:2646-2797 | whatever others reserve and release while the step waits, on every exit exactly its own reservations are gone from the ledger, and the step continues exactly if it was not cancelled, its actions lie inside the source and within the limit, and ledger, source or pause, and adapter allow |
| StagingLimiter.DrainKeeps | js/client.ts:395-419 | draining ends with the queue settled: nobody left fits, nobody left is aborted, used bytes are the live permits and within the capacity |
| StagingLimiter.AcquireKeeps | js/client.ts:327-371 | an acquire is refused exactly for a bad size, a closed limiter or an aborted signal; otherwise it has its permit, at once if the bytes fit, or waits |
| StagingLimiter.RefusedExactly | js/client.ts:327-371 | with which error a call is refused |
| StagingLimiter.AcquireLeavesOthers | js/client.ts:327-371 | a call takes nothing from those who have permits and gives nothing to others but who waited, for the bytes they asked for |
| StagingLimiter.DrainAccounts | js/client.ts:395-419 | after a drain every waiter still waits, was cancelled because its signal is aborted, or has its permit |
| StagingLimiter.DrainServesWaiters | js/client.ts:395-419 | draining settles nobody but waiters: with a permit for their bytes, or as cancelled |
| StagingLimiter.PermitReleaseKeeps | js/client.ts:382-393 | a release frees its bytes once and lets in whoever fits; a second release changes nothing |
| StagingLimiter.ReleaseEndsOne | js/client.ts:383-419 | a release ends one permit; all others stay, and every new one goes to a waiter, for the bytes asked for |
| StagingLimiter.AbortKeeps | js/client.ts:345-360 | an abort removes one waiter and settles it once |
| StagingLimiter.AbortRefusesOne | js/client.ts:360-366 | an abort refuses one waiter as cancelled and leaves everybody else as they are |
| StagingLimiter.CloseKeeps | js/client.ts:373-380 | closing refuses every waiter and leaves the permits |
| StagingLimiter.WaitersHaveAPermitAhead | js/client.ts:395-419 | while someone waits, some permit is live, so that a release will come |
| StagingLimiter.NoOvertaking | js/client.ts:395-419 | a waiter is overtaken only by smaller ones |
| StagingLimiter.SourceStagingLimiter.Acquire | js/client.ts:327-371 | the method does the specified step in place |
| StagingLimiter.SourceStagingLimiter.Drain | js/client.ts:395-419 | the loop ends and does what draining from the front does; a closed limiter grants nothing |
| StagingLimiter.SourceStagingLimiter.Release | js/client.ts:382-393 | the permit's closure does the specified step in place |
| StagingLimiter.SourceStagingLimiter.Close | js/client.ts:373-380 | closing does the specified step in place |
| RangeCache.EvictedIsLongestSuffix | js/range-cache.ts:140-186 | eviction keeps the most recently used entries and no fewer of them than fit |
| RangeCache.StoreKeeps | js/range-cache.ts:140-173 | an entry is refused exactly if it exceeds the limit alone; otherwise it is the newest and the cache is within the limit |
| RangeCache.StoreEvictsLittle | js/range-cache.ts:140-173 | storing drives out no more than it must: the newest other entries stay, as many as fit beside the new one |
| RangeCache.StoredIsOldOrNew | js/range-cache.ts:140-173 | storing brings in nothing but the new entry |
| RangeCache.TouchKeeps | js/range-cache.ts:130-138 | a hit becomes the most recently used entry and nothing else moves |
| RangeCache.TrimKeeps | js/range-cache.ts:175-186 | trimming brings the cache within the given bytes |
| RangeCache.TrimEvictsLittle | js/range-cache.ts:175-195 | and so does trimming |
| RangeCache.KeptAreUnchosen | js/range-cache.ts:188-195 | deleting by a predicate leaves exactly the entries it does not choose |
| RangeCache.RetainKeeps | js/client.ts:1486-1514 | retaining source bytes is allowed exactly within the slice, and trims the cache so that both fit |
| RangeCache.RetainTakesLittle | js/client.ts:1486-1515 | a reservation adds itself to the retained sources and takes from the cache only what it needs |
| RangeCache.UnretainKeeps | js/client.ts:1498-1514 | giving retained bytes back works once |
| RangeCache.OthersRetained | js/client.ts:1486-1515 | giving bytes back leaves cache and other sources as they are, and storing a batch leaves the sources as they are |
| RangeCache.StoreBatchKeeps | js/client.ts:1516-1518 | a batch is stored only in what the retained sources leave |
| RangeCache.ByteLruCache.Get | js/range-cache.ts:130-138 | finds the entry of the key and makes it the newest |
| RangeCache.ByteLruCache.Set | js/range-cache.ts:140-173 | the eviction loop stores as specified, and the byte count stays the sum of the entries |
| RangeCache.ByteLruCache.TrimTo | js/range-cache.ts:175-186 | the trim loop evicts as specified |
| RangeCache.ByteLruCache.DeleteWhere | js/range-cache.ts:188-195 | the loop deletes exactly the chosen entries |
| CacheKeys.QuotedReadsBack | js/range-cache.ts:212-232 | a string literal of any UTF-16 text, escapes and lone surrogates included, reads back as that text, whatever follows it |
| CacheKeys.DigitsReadBack | js/range-cache.ts:212-232 | a decimal number reads back |
| CacheKeys.ArrayReadsBack | js/range-cache.ts:212-232 | a written array of strings and numbers parses to itself |
| CacheKeys.KeysAreDistinct | js/range-cache.ts:212-232 | two keys are equal if and only if dataset, table, revision, schema version, range and variant are |
| CacheKeys.DatasetPrefixIsExact | js/range-cache.ts:234-236 | the textual prefix picks out the keys of one dataset and no other, for any handles |
| CacheKeys.TablePrefixIsExact | js/range-cache.ts:238-246 | the longer prefix picks out the keys of one table and no other |
| CacheKeys.VersionIsExact | js/range-cache.ts:248-262 | parsing a key recovers its revision and schema version, with or without the display variant |
| CacheKeys.HitIsTheBatch | js/client.ts:1107-1119 | a cache hit is the batch of exactly the range, version and variant asked for |
| CacheKeys.CacheStaysCoherent | js/client.ts:1107-1119 | look-ups, trims, stores and deletions keep every entry the batch its key names |
| CacheKeys.DatasetIsCleared | js/client.ts:1394-1396 | clearing a dataset deletes its batches and no others |
| CacheKeys.StaleVersionsAreCleared | js/client.ts:1405-1415 | a new version deletes the table's batches of other versions and no others |
| MemoryCeiling.StepKeeps | js/client.ts:317-419 | every event of ledger, Worker, staging limiter, cache and retained bytes keeps all their accounts |
| MemoryCeiling.LedgerMovesUse | js/model.ts:124-148 | a ledger reservation that fits counts from then on, another does not, and what is released is gone, once |
| MemoryCeiling.SliceMovesUse | js/client.ts:1486-1515 | the same for retained bytes |
| MemoryCeiling.StageMovesUse | js/client.ts:327-371 | a staged read that fits counts at once |
| MemoryCeiling.SlotMovesUse | js/worker.ts:1492-1528 | a slot that is reserved counts with the cache it may fill |
| MemoryCeiling.CeilingHolds | js/client.ts:2361-2370 | for every engine that can be created: in every run the ledger, the granted source caches, staging, cached and retained bytes together never exceed its budget |
| MemoryCeiling.CreatedExactlyWhenSlicesFit | js/client.ts:2361-2370 | a budget is refused exactly if it is no positive safe integer or its slices would not fit it |
| MemoryCeiling.WorkerWithinSlices | js/worker.ts:399-413 | a Worker of any budget that `hello` accepts stays within its ledger and one cache for each source slot, in every run |
| MemoryCeiling.OverrunExceeds | js/worker.ts:410-412 | for every budget below 8 MiB a run of three Worker steps exceeds it: a full ledger and one source slot |
| MemoryCeiling.WorkerCeilingExactlyWhenSplit | js/worker.ts:399-413 | a Worker alone stays within the budget it is given in every run if and only if that is at least 8 MiB |
| ArrowRange.PlanIsClipped | src/arrow.rs:2449-2487 | a plan is given exactly for valid starts and cell counts, is the request clipped to the extent, and is complete exactly if nothing was clipped |
| ArrowRange.BatchStandsAt | src/arrow.rs:320-382 | batch i stands in the flattened column at the sum of the rows before it |
| ArrowRange.OneBatchMore | src/arrow.rs:578-621 | adding the slice of one more batch extends the part of the range collected so far to that batch's end |
| ArrowRange.RangeIsUnique | src/arrow.rs:553-621 | two answers that are the range of the same flattened batches are equal, so the Stream read and the File read agree |
| ArrowSource.TallyIsSum | src/arrow.rs:320-382 | the running counts are the sums of rows and bytes of the batches read |
| ArrowSource.BuildIsOk | src/arrow.rs:320-382 | a built source has the prefix sums as row offsets and the total as decoded bytes, within the limits |
| ArrowSource.BuildExactly | src/arrow.rs:320-382 | a source is built exactly from batches of its schema whose rows and bytes fit, and has those batches, their row offsets, their bytes and the extent asked for |
| ArrowSource.FirstDeltaExactly | src/arrow.rs:384-413 | a first delta opens a source exactly if it starts at the first batch and counts right |
| ArrowSource.AppendIsOk | src/arrow.rs:415-518 | an appended delta extends both exactly and ends at the delta's cumulative bytes |
| ArrowSource.AppendExactly | src/arrow.rs:415-505 | a later delta is taken exactly if it starts where the source ends, is of its schema and limits, counts right and fits; then the source has its batches behind the old ones |
| ArrowSource.DeltaApplies | src/arrow.rs:384-518 | publishing what is not yet published gives what building from all batches at once gives, and cannot fail |
| ArrowSource.StepKeeps | src/arrow.rs:1502-1567 | every step of decoding, taking a delta and taking the last one keeps the published source the build of a prefix of the decoded batches |
| ArrowSource.TakePublishesAll | src/arrow.rs:1502-1530 | taking a delta publishes all that is decoded, in a source that may still grow; if nothing is new it does nothing |
| ArrowSource.CompletePublishesAll | src/arrow.rs:1532-1560 | the last delta publishes all, in a source that is final |
| ArrowSource.DeltasBuildTheSource | src/arrow.rs:1502-1567 | for every interleaving the final source is the source built in one go from all decoded batches, with exact extent |
| ArrowStreamRead.IndexBatches | src/arrow.rs:330-370 | the loop computes the row offsets and decoded bytes, or the first error |
| ArrowStreamRead.ArrowIpcSource.FromBatches | src/arrow.rs:320-382 | the constructor builds the specified source or fails with its error |
| ArrowStreamRead.ArrowIpcSource.AppendStreamDelta | src/arrow.rs:415-518 | appends as specified in place; on an error nothing changes |
| ArrowStreamRead.ArrowIpcSource.ProjectColumn | src/arrow.rs:578-621 | the slices of the batches are exactly the rows of the flattened column; the "row index did not cover" error cannot occur |
| ArrowStreamRead.ArrowIpcSource.ReadRange | src/arrow.rs:553-576 | the answer is the clipped range of the flattened batches in every projected column |
| ArrowFileIndex.CollectIsMaximal | src/arrow.rs:1403-1455 | the actions are the next blocks in order, and as many as both limits allow |
| ArrowFileIndex.NextActionsAreNext | src/arrow.rs:1403-1455 | the same from the start; no action is left exactly if the index is complete |
| ArrowFileIndex.PlannedExactlyWhen | src/arrow.rs:1403-1455 | actions are planned exactly if both limits are positive, every block that is looked at lies in the source, and the first one fits |
| ArrowFileIndex.FeedIsIndexBlocks | src/arrow.rs:1621-1671 | answers to the next n actions index exactly the next n blocks |
| ArrowFileIndex.OnlyAnswersAreTaken | src/arrow.rs:1621-1671 | answers are taken only if they are those to the next blocks, by place, length and end of the source |
| ArrowFileIndex.BatchingIsIrrelevant | src/arrow.rs:1621-1671 | every batching of the requests that succeeds gives the index of reading block by block |
| ArrowFileIndex.BatchesFailAlike | src/arrow.rs:1621-1671 | if the blocks can be requested, every batching succeeds or fails as reading block by block does |
| ArrowFileIndex.IndexIsPrefixSums | src/arrow.rs:3342-3391 | each record's row start is the sum of the row counts before it |
| ArrowFileIndex.IndexesExactlyWhen | src/arrow.rs:3342-3391 | indexing succeeds exactly if every block can be read and all rows together are a number that the machine has |
| ArrowFileIndex.IndexMany | src/arrow.rs:1650-1668 | each answer takes one block off the remaining ones, which is why opening ends |
| ArrowFileIndex.ArrowFileOpen.NextActions | src/arrow.rs:1403-1455 | the loop plans the specified actions |
| ArrowFileIndex.ArrowFileOpen.FeedMany | src/arrow.rs:1621-1671 | the loops check all answers before indexing any; if they do not match, nothing changes, and if indexing fails after that, the open has lost its state |
| ArrowFileRead.IndexFits | src/arrow.rs:3342-3391 | a complete index over record counts equal to the batches' rows is the index the read relies on |
| ArrowFileRead.HitsCoverTheRange | src/arrow.rs:1988-2003 | the blocks that the filter keeps cover the requested rows, in order and without gap |
| ArrowFileRead.RequiredAreHits | src/arrow.rs:1961-2003 | after the dictionaries, the required blocks are exactly those hits |
| ArrowFileRead.RequiredExactly | src/arrow.rs:1961-2003 | nothing is required for an empty range; otherwise every dictionary once, in front, if a returned column uses one and none if no column does, and then, once and in order, every record that holds one of the rows |
| ArrowFileRead.UsageIsSum | src/arrow.rs:2077-2198 | over a whole read, retained bytes are the sizes of the dictionaries and the detached projections of the records fed so far |
| ArrowFileRead.TakesExactlyWhen | src/arrow.rs:2077-2198 | a block is taken exactly if it decodes, and both what is live while it is decoded and what is retained afterwards, as sums over the blocks, fit the limit |
| ArrowFileRead.JoinColumn | src/arrow.rs:2215-2245 | the loop joins the slices of the decoded blocks |
| ArrowFileRead.ArrowFileReadOperation.Feed | src/arrow.rs:2077-2198 | a block is taken exactly if it decodes and its peak and retained bytes fit; the accounts move by its estimate or its detached projection; otherwise nothing changes |
| ArrowFileRead.ArrowFileReadOperation.BuildBatch | src/arrow.rs:2200-2260 | once all blocks are fed the batch is the clipped range of the flattened batches, refused exactly if assembling would exceed the limit |
| ArrowRegistry.RegisterKeeps | src/arrow.rs:3752-3782 | a source is registered exactly within count, budget and handle limits, under a handle never used before |
| ArrowRegistry.OpenExactly | src/arrow.rs:3594-3603 | a source is opened exactly within limits, count, budget and handles, and stands under the new handle; others stay where they are |
| ArrowRegistry.AppendKeeps | src/arrow.rs:3621-3683 | an append keeps retained bytes the sum over the open sources and within budget |
| ArrowRegistry.AppendedExactly | src/arrow.rs:3621-3683 | a delta is taken exactly if the handle is an open stream that takes it and the growth fits; then the grown source is under the handle |
| ArrowRegistry.ReplaceKeeps | src/arrow.rs:3685-3743 | a replacement keeps the account; its subtraction cannot underflow |
| ArrowRegistry.ReplacedExactly | src/arrow.rs:3685-3743 | a stream is replaced exactly by another one that fits in its place, which is then under the handle |
| ArrowRegistry.CloseSourceKeeps | src/arrow.rs:3849-3859 | closing takes the source's tables along and its bytes exactly; closing again changes nothing |
| ArrowRegistry.TablesExactly | src/arrow.rs:3784-3810 | a table is opened exactly for an open source while there are handles, and leads to it |
| ArrowRegistry.ClosingExactly | src/arrow.rs:3844-3870 | closing a table or a source takes nothing else away |
| ArrowRegistry.CallKeeps | src/arrow.rs:3551-3905 | every call keeps the registry invariant |
| ArrowRegistry.CallRetires | src/arrow.rs:3895-3905 | no handle that was ever given out is given out again |
| ArrowRegistry.CallsKeep | src/arrow.rs:3551-3905 | both over every sequence of calls |
| ArrowRegistry.ArrowIpcRuntime.RegisterSource | src/arrow.rs:3752-3782 | registers as specified in place; on an error nothing changes |
| ArrowRegistry.ArrowIpcRuntime.AppendIncrementalStream | src/arrow.rs:3621-3683 | appends as specified in place; on an error nothing changes |
| ArrowRegistry.ArrowIpcRuntime.ReplaceIncrementalSource | src/arrow.rs:3685-3743 | replaces as specified in place; on an error nothing changes |
| ArrowRegistry.ArrowIpcRuntime.CloseSourceHandle | src/arrow.rs:3849-3859 | closes as specified in place and tells whether the source was open |
| ArrowRegistry.ArrowIpcRuntime.SourceForTable | src/arrow.rs:3885-3893 | every open table leads to its open source |
| BufferPool.InternKeeps | src/arrow.rs:4357-4401 | buffers stay pairwise distinct and within the bytes, earlier ones stay in place, and the new bytes are among them |
| BufferPool.ReadsLater | src/arrow.rs:4357-4401 | a slice given out earlier reads the same bytes in every later pool |
| BufferPool.BucketAdds | src/arrow.rs:4389-4394 | the hash index keeps listing every buffer under its key, collisions included |
| BufferPool.BufferPoolBuilder.FindCandidate | src/arrow.rs:4357-4370 | for every hash function a buffer is found exactly if its bytes are stored |
| BufferPool.BufferPoolBuilder.Intern | src/arrow.rs:4357-4401 | the slice returned reads back the bytes; on an error the pool is unchanged |
| DisplayText.PoppedIsLongestPrefix | src/arrow.rs:4756-4771 | cutting character by character keeps the longest whole-character prefix within the bytes |
| DisplayText.TruncatedFits | src/arrow.rs:4756-4771 | truncated text fits, is unchanged if it fitted, and is otherwise a whole-character prefix and the suffix |
| DisplayText.WrittenIsPrefix | src/arrow.rs:4838-4869 | the writer for nested values keeps whole escapes, as many as fit, and is stopped exactly if not all do |
| DisplayText.EscapedReadsBack | src/arrow.rs:4853-4869 | the escaped text can be read back as the text |
| DisplayText.EscapedIsOneLine | src/arrow.rs:4853-4869 | no tab and no line break is left in it |
| DisplayText.WrittenConcat | src/arrow.rs:4853-4869 | it does not matter in which pieces the formatter writes |
| DisplayText.BoundedFits | src/arrow.rs:4783-4836 | a nested preview fits, is the escaped text if that fits, and is otherwise a whole-character prefix of it and the suffix |
| DisplayText.BoundedIsTruncated | src/arrow.rs:4821-4836 | with room for the suffix, the bounded writer gives what truncating the whole escaped text gives |
| DisplayText.ShortLimitKeepsEscapes | src/arrow.rs:4821-4851 | without that room no escape is cut in two, and the next one would not have fitted |
| DisplayText.BoundedEscapedDisplayWriter.WriteStr | src/arrow.rs:4853-4869 | the loop writes as specified and reports an error exactly when it is stopped |
| DisplayText.BoundedEscapedDisplayWriter.Finish | src/arrow.rs:4821-4836 | the pop loop leaves the longest prefix in front of the suffix |
| DisplayText.FormatBoundedNested | src/arrow.rs:4783-4798 | the writer, fed with the formatter's pieces, gives the bounded preview of the joined text |
| DisplayBudget.ShareLeavesEnough | src/arrow.rs:4607-4631 | a ceiling share never exceeds what remains and leaves an equal share to each of the others |
| DisplayBudget.ShownFits | src/arrow.rs:4590-4657 | the shown texts of a column, nested or not, stay within its bytes, and nulls stay nulls |
| DisplayBudget.EqualShareIsShown | src/arrow.rs:4590-4657 | a text that, escaped if nested, is no longer than an equal share is shown in full |
| DisplayBudget.BudgetWithinRemaining | src/arrow.rs:2850-2862 | a column's budget never exceeds what remains |
| DisplayBudget.BudgetIsFair | src/arrow.rs:2854-2862 | a column has an equal share for each of its values and leaves one to every value of the other columns |
| DisplayBudget.EveryShareIsShown | src/arrow.rs:2840-2883 | over all columns: a text no longer than the cell limit and an equal share of all bytes left for text is shown in full, as long as the products do not saturate |
| DisplayBudget.StructuralIsSize | src/arrow.rs:4725-4740 | the structural bytes are exactly what a shown column takes besides its text |
| DisplayBudget.DisplayArray | src/arrow.rs:4590-4657 | the loop shows exactly those texts, for plain and for nested columns, and fails only if the structure alone does not fit |
| DisplayBudget.StoreColumn | src/arrow.rs:4412-4577 | the words of the offsets, the validity bits and the text of a shown column are interned, read back from the pool, and cost no more than its bytes |
| DisplayBudget.EncodeDisplays | src/arrow.rs:2825-2883 | once the structural check passes no display limit error can occur, for any mix of plain and nested columns; every column is shown with its share, and the pool stays within its limit |
| DisplayDecode.AllPreviewsDecode | js/model.ts:627-645 | end to end: with less than 2^31 bytes left for text, every stored preview column passes the host's validation, and every cell shows there what its share allows, without a leading byte order mark |
| DisplayDecode.EqualShareDecodes | js/model.ts:627-645 | end to end: such a text is read whole on the host |
| DisplayDecode.PreviewDecodes | js/model.ts:627-645 | with less than 2^31 bytes of text, a stored preview decodes cell by cell to the texts it was made from, nulls to nulls |
| DisplayDecode.PreviewIsValid | js/model.ts:862-889 | and it passes the host's validation |
| DisplayDecode.BitmapAt | js/model.ts:1343-1355 | the host's test of a stored validity bit says whether the cell is present |
| DisplayDecode.PreviewsFit | src/arrow.rs:2847-2883 | no column's text exceeds what was left for all of them |
| RpcClient.RequestKeeps | js/rpc-client.ts:96-175 | a request gets a new id and is pending exactly if it was posted |
| RpcClient.RequestAdds | js/rpc-client.ts:96-175 | one message and one pending call of the kind asked for, or a settled one if it cannot be sent; no other call changes |
| RpcClient.AbortKeeps | js/rpc-client.ts:117-130 | an abort settles its call once and posts exactly one cancel message; other calls stay pending |
| RpcClient.AbortTakesOne | js/rpc-client.ts:117-130 | an abort takes one call away and posts one message |
| RpcClient.StopKeeps | js/rpc-client.ts:302-331 | after stop nothing is pending |
| RpcClient.StopSettles | js/rpc-client.ts:302-331 | stopping settles every pending call as stopped |
| RpcClient.RespondKeeps | js/rpc-client.ts:244-271 | a response settles its call once, as failed, resolved or of the wrong kind, which stops the runtime; other calls stay pending, and a response to nobody changes nothing |
| RpcClient.PendingKeepsKind | js/rpc-client.ts:96-271 | whatever happens, a pending call waits for the kind it asked for |
| RpcClient.AnswerResolves | js/rpc-client.ts:96-271 | whatever happens between, a call that is still pending is resolved by an answer of the kind it asked for and by no other; another kind stops the client |
| RpcClient.WorkerRpcClient.Request | js/rpc-client.ts:96-175 | does the specified step in place, with the source's errors |
| RpcClient.WorkerRpcClient.Abort | js/rpc-client.ts:117-130 | does the specified step in place |
| RpcClient.WorkerRpcClient.FailPending | js/rpc-client.ts:302-308 | the loop settles every pending call and no settled one again |
| RpcClient.WorkerRpcClient.Stop | js/rpc-client.ts:316-331 | stops once |
| RpcClient.WorkerRpcClient.HandleResponse | js/rpc-client.ts:244-271 | does the specified step in place |
| Singleflight.ReadKeeps | js/client.ts:1107-1155 | a caller joins the flight of its key without a new call, or starts the only one |
| Singleflight.JoinAddsCaller | js/client.ts:1107-1155 | joining adds the caller to the flight of its key and does nothing else |
| Singleflight.StartPostsOnce | js/client.ts:1107-1155 | starting a flight posts exactly one request, which is the flight's, and touches no other flight |
| Singleflight.OneLiveFlightPerKey | js/client.ts:1158-1241 | two live flights never share a key |
| Singleflight.OthersKeepTheFlight | js/client.ts:1242-1281 | while another caller waits, a caller that leaves neither frees the key nor posts anything |
| Singleflight.LastCallerCancels | js/client.ts:1242-1281 | the last caller that leaves frees the key in that step and posts exactly one cancel message for the pending call |
| Singleflight.OneFlightEnds | js/client.ts:1158-1281 | dropping marks one flight and settling ends one, and each frees its key and nothing else |
| Singleflight.StopReleasesEveryFlight | js/client.ts:1417-1422 | after stop every flight may settle |
| Singleflight.StepKeeps | js/client.ts:1087-1281 | every event keeps the invariant, and settled calls stay settled |
| Singleflight.RunKeeps | js/client.ts:1087-1281 | and so does every run |
| Singleflight.RunAnswers | js/client.ts:1087-1281 | in every run a flight has settled only with its request |
| Singleflight.RangeFlights.ReadRange | js/client.ts:1107-1155 | the caller ends up in the flight of its key |
| Singleflight.RangeFlights.CallerLeaves | js/client.ts:1242-1281 | does the specified step in place, through the client |
| Singleflight.RangeFlights.ClearDataset | js/client.ts:1394-1403 | the loop frees exactly the keys of the dataset, aborts their flights and cancels the requests still pending, and leaves the flights of others as they are |
| PermitQueue.AcquireKeeps | js/range-cache.ts:43-54 | an acquire gets a permit, waits behind all others or is refused, the last exactly if all permits are held and the queue is full |
| PermitQueue.ReleaseKeeps | js/range-cache.ts:67-86 | a release hands its permit to the first waiter, or frees it, once |
| PermitQueue.CancelKeeps | js/range-cache.ts:56-65 | a cancel removes its waiter and keeps the order of the others |
| PermitQueue.NeverFull | js/worker.ts:1299-1410 | a read admitted under the in-flight bound always finds room: the queue-full error cannot occur |
| PermitQueue.StartAdmits | js/worker.ts:1299-1340 | a read is admitted exactly while fewer run than there are permits and places |
| PermitQueue.AskingGives | js/range-cache.ts:43-54 | a read that asks has its permit at once if one is free, and otherwise waits behind the others |
| PermitQueue.FinishPasses | js/range-cache.ts:67-86 | a read that ends gives its permit to the one who has waited longest |
| PermitQueue.WaiterIsServed | js/range-cache.ts:43-86 | nobody waits for ever: as reads end, a waiter has its permit after as many as stand before it and one |
| PermitQueue.EveryRunHasRoom | js/worker.ts:70 | in every run nobody is refused, permits stay within the maximum, and someone waits only while all are held |
| PermitQueue.FirstInFirstOut | js/range-cache.ts:43-86 | over every run, a read that does not wait in front of another gets a permit only after that one was served or cancelled |
| PermitQueue.AsyncPermitQueue.Acquire | js/range-cache.ts:43-54 | does the specified step in place |
| PermitQueue.AsyncPermitQueue.WakeWaiters | js/range-cache.ts:79-86 | the loop wakes waiters in order while permits are free |
| PermitQueue.AsyncPermitQueue.Cancel | js/range-cache.ts:56-65 | does the specified step in place and tells whether someone waited |
| PermitQueue.AsyncPermitQueue.Release | js/range-cache.ts:67-86 | does the specified step in place |

## Left out

Code outside the model, represented by parameters:

- The FlatBuffer parse, arrow-rs decoding, concatenation and value formatting, and zstd and LZ4: functions of the bytes or given outcomes.
- `csv_core` beyond its byte automaton, its own byte order mark handling included; UTF-8 validation and lossy decoding are the parameters `validText` and `decode`.
- The hash function of the buffer pool: any function.
- Clocks, timeouts, event listeners, telemetry and error texts; a timeout is a stop of the runtime.
- HTTP, the Excel and Parquet adapters, option and metadata normalisation, the Canvas view.
- `js/http.ts` `ReadLimiter`, and `SourceReadConcurrencyLimiter`, which is a queue of the same shape as the staging limiter with permits of one unit.
- The local-read failure path of an operation step (`js/worker.ts:2845-2851`), which detaches reservations of reads that never started.

Stated weaker, or on values:

- StreamValidator.StreamWireValidator.FeedChunk: the per-feed peak counters and the decode memory check that uses them are not modelled, because they are reset by every feed and depend on the chunks by design; neither is the state behind an error, which the caller discards.
- CsvScanner.CsvScanner.FeedChunk: overflow of u64 offsets and row counts is not modelled; which diagnostics survive the cap, and in what order, depends on the chunks and is left open beyond the multiset below the cap.
- CsvDecoder.RangeDecoder.FeedChunk: for a source that was never accepted by a scan, errors are only known to be limits or, in strict mode, parse failures.
- StringColumn.ValidatedDecodes: `>>>` takes bit indexes modulo 2^32; indexes from 2^32 on are not modelled.
- StringColumn.HeldCellsDecode: a text is represented by its UTF-8 bytes, on which the host's decoder is the identity behind the mark; values that are not UTF-8, for which it would put in replacement characters, are never pushed, because the adapter has decoded them before.
- StringColumn.StringColumnBuilder.Push: the final UTF-8 check of a finished column is not modelled; the pushed texts are valid by then.
- CsvRange.RowDecodes: the decoder's column builders are values inside the decoder, not objects of their own.
- WorkerSteps.StepKeeps: it is assumed that an adapter never gives out an operation handle twice, and that an answer names the handle it is about; a dataset and its source handle are named by the open request; table handles inside the adapter of tables that were never published, event delivery, warnings and scan waiters are not modelled.
- WorkerRuns.NothingLeaksAtRest: speaks of operation handles and slots; that no source handle inside the adapter is left open is not stated, and a source that is named only by a late continuation of a cancelled open is not modelled.
- WorkerLifecycle.Worker.Shutdown: that the Worker refuses new requests after shutting down is not modelled.
- CacheKeys.VersionIsExact: parsing accepts only the arrays that keys are, not all of JSON; other texts are never used as keys.
- ArrowSource.BuildIsOk: overflow of counts is modelled by a largest machine word for rows and bytes; schema validation is the flag `accepted`.
- ArrowFileIndex.ArrowFileOpen.FeedMany: the magic, trailer and footer states that come before the block index are not modelled.
- ArrowFileRead.ArrowFileReadOperation.Feed: decoding is a given outcome; the bytes of a detached projection are a function of block and plan, and the decoded batch has the indexed number of rows.
- ArrowRegistry.ArrowIpcRuntime.RegisterSource: sources in the registry are values, and of the checks of `validate_for_memory_budget` only the one on decoded bytes is modelled.
- DisplayBudget.EncodeDisplays: the native descriptors that are interned first are represented by the pool they leave; the formatted text of a cell is given, the formatter is taken to stop at the writer's first error, and the number of buffers is within u32. The list preview of the Parquet decoder is not modelled.
- DisplayBudget.StoreColumn: offsets are words modulo 2^32; from 2^31 bytes of text in one preview column on, the source's string builder panics, which is not modelled. `DisplayDecode` states what is read back below that.
- OperationReads.OperationStep.Advance: the checks of a continuation's handle and revision are part of the adapter's outcome, and a cancellation while the step waits is the outcome of the wait.
- MemoryCeiling.CeilingHolds: of `createEngine`, the budget is modelled; it is an integer, anything else is refused as well.
- DisplayBudget.StoreColumn: offsets are words modulo 2^32; from 2^31 bytes of text in one preview column on, the source's string builder panics, which is not modelled. `DisplayDecode` states what is read back below that.
- OperationReads.OperationStep.Advance: the checks of a continuation's handle and revision are part of the adapter's outcome, and a cancellation while the step waits is the outcome of the wait.
- MemoryCeiling.CeilingHolds: of `createEngine`, the budget is modelled; it is an integer, anything else is refused as well.
- Singleflight.RangeFlights.ReadRange: the cache look-up before it is the subject of CacheKeys; keys are abstract here.
