# Fluvo's import engine, modelled and proved in Dafny

Fluvo loads rows into an Odoo server that may time out, lose replies, answer partially, refuse
requests or be overloaded. Its promise is that every source row is accounted for and that running
an import again is safe. This project models the code behind that promise and proves what it keeps.

`dafny verify dfyconfig.toml` checks everything.

## How the model is laid out

- **The server is an adversary.** `LoadProtocol` gives it the type `(History, Request) -> Reply`: any
  answer to any request, depending on everything exchanged before. The one thing always needed of it is that a
  non-empty answer to two or more lines acknowledges at least one (`AnswersProgress`); without it the fallback does
  not end. Two more conditions are needed for some results: an answer of full length has no hole
  (`AnswersWithoutHoles`), and a line left out of a partial answer that was really given also fails alone
  (`LeftOutStaysOut`, which the upserting store has: `FallbackRefinement.StoreLeavesNoneOut`). Where they fail, the
  rows lost are counted: `Accounting.BatchReconciles`.
- **Loops are methods, and each is proved equal to a function of its inputs.** The worker, its fallbacks, the
  batchers, the Pass 2 preparation and the thread pools are methods with loop invariants; the throttle
  controller, the export worker, the variable resolver and the checkpoint file are classes. What the
  source promises is then proved of the functions.
- **Threads** are a nondeterministic choice of the batch that completes next (Pass 1, export) or of the
  worker that makes the next RPC attempt (Pass 2, `write`).
- **The target store** is an upserting database in `TargetStore` (keyed by external id, all-or-nothing requests,
  each line good or bad on its own), with lost replies added in `AmbiguousFaults`. `SharedStore` lets many workers
  make their calls on it in any order, `PassEffect` says what that leaves, and `CrashRecovery` puts checkpoints,
  Pass 2 and crashes on top: its Pass 1 makes the calls of `LoadWorker`, one at a time.

| files | subject |
|---|---|
| LoadProtocol, XmlId, ColumnNames, Basics | rows, column projection of the three load paths, requests, replies, id sanitising |
| LoadFallback, FallbackFacts | single-record load and binary fallback |
| LoadWorker, WorkerFacts | the Pass 1 worker: settlement, evidence for each id, bounds |
| RequestShape, WorkerReactions | what the requests contain; how the worker reacts to each class of error |
| Accounting, Batching, BatchingFacts, SortOrder, PassOne | batching, the threaded pass, created + failed against total |
| Assumptions | servers that break a condition and make rows vanish from the report |
| TargetStore, StoreFacts, Halving, FallbackRefinement, HistoryFacts | the store and its invariants; the fallback refines one-by-one load |
| RowIsolation, SharedStore, PassEffect | which answers isolate bad rows; workers on one store; what Pass 1 leaves in the store |
| AmbiguousFaults | lost replies are harmless |
| Packing | greedy packing by count and bytes |
| WireValues, PreparedWrites, PreparedValues, Writes, PassTwo, WriteThreaded | Pass 2 and the `write` command |
| CrashRecovery, CheckpointFile, UninterruptedRun | crashes, checkpoints, restarts |
| FlowVars | variable resolution |
| Throttle | the throttle controller |
| Export, ExportSession | export splitting and resumable sessions |
| SkipUnchanged | the skip-unchanged filter |

## Where the code differs from what it says

- **Exactly-once settlement has an exact condition.** With an ignore list, a chunk that mixes rows too
  short for the kept columns with longer rows reports the short ones twice when the server refuses it:
  `WorkerFacts.SettlementExact` is an if-and-only-if (src/fluvo/import_threaded.py:1804-1807 and 1504-1510).
- **A row can be created and reported nowhere.** When the single load after a partial bulk answer succeeds, its id
  map is dropped (src/fluvo/import_threaded.py:1595-1607), and a hole in a full-length answer forgets its row
  (2052-2055). The report adds up to the total if and only if neither happens, and falls short by exactly their
  number: `Accounting.BatchReconciles`; `Assumptions` has a server for each.
- **A bad row can take good ones with it.** After a read time-out, or an empty answer whose message names rows, the
  worker records the whole chunk as failed without trying its rows (src/fluvo/import_threaded.py:2136-2163 and 2061-2133):
  `RowIsolation.OtherRefusalsFailAll`. After any other refusal only bad rows fail: `RowIsolation.BatchIsolates`.
- **Resuming depends on the file hash telling contents apart.** It reads the size and the first and last megabyte
  (src/fluvo/lib/checkpoint.py:48-70). Imports from a checkpoint converge if and only if it is for other content,
  unfinished, or sound for the store: `UninterruptedRun.ConvergesIffCheckpointIsSound`.
- **The three load paths read the ignore list differently.** With `parent_id` deferred, the worker does not send the
  column `parent_id/id`, but the bulk fallback does; with `parent_id/id` deferred, the single-record load sends it:
  `RequestShape.WorkerSends`, `FallbackSends` and `SingleSends` (src/fluvo/import_threaded.py:1755-1777, 1531 and 1323-1330).
- **The worker sanitises the id at its place in the unfiltered row**, so with a column dropped before the id column
  it sends the raw id: `StoreFacts.SendsItsIdIffKeepsLeftOfId` (src/fluvo/import_threaded.py:1829-1850).
- **The 25-name cap makes resolution depend on the visiting order**, and that order comes from a set
  (src/fluvo/lib/flow.py:164-188). Some order works if and only if the file is defined and acyclic; with at
  most one reference for each variable, every order works if and only if no chain is longer than 25 besides; and each
  file between the two resolves in one order and fails in another: `FlowVars.ResolvableIffDefinedAndAcyclic`,
  `FlowVars.CapIsExact`, `FlowVars.DepthDependsOnOrder`.
- **A new export session keeps the log of an old one.** `_create_new_session` only touches `completed_ids.txt`
  (src/fluvo/export_threaded.py:869). A resumed run then skips ids that its output lacks and reports success:
  success means a complete output if and only if the log names none of the ids, `ExportSession.SuccessIsCompleteIffLogIsForeign`.
- **The base delay is not in force at the start.** Until health has changed once the delay is 0, whatever
  `healthy_delay` is (src/fluvo/lib/throttle.py:81-93): part of `Throttle.EveryRunAccounts`.
- **The vectorised filter is not always the loop.** When an existing record lacks a compared field that
  another has, the join keeps rows the loop drops, never the reverse: `SkipUnchanged.AgreementIsSharedKeys`.
- **An empty read is silent.** An export batch whose read returns nothing is neither exported nor failed
  (src/fluvo/export_threaded.py:289-290). No id is lost if and only if each read returns all it was asked for:
  `Export.PartitionIffReadsAll`.
- **An unknown group column drops every row** without an error: `BatchingFacts.MissingColumnDropsAll`.
- **The fallback's comment counts log2(n) + 1 calls for one bad row.** The bound proved is
  1 + 2k * ceil(log2 n) calls for k bad rows: both halves of a failed batch are sent.

## Model

| member | source | states |
|---|---|---|
| WorkerFacts.SettlementExact | src/fluvo/import_threaded.py:1780-2354 | against every server without holes each row of a batch ends acknowledged or failed exactly once, if and only if the batch does not mix rows too short for the kept columns with longer ones |
| WorkerFacts.BatchSettles | src/fluvo/import_threaded.py:1780-2354 | the same for one server: acknowledged rows and failed rows together are the batch, as bags |
| WorkerFacts.WorkKeeps | src/fluvo/import_threaded.py:1780-2354 | what one server makes the loop forget, by holes in full-length answers, is the only difference between the queue and its acknowledged and failed rows |
| WorkerFacts.RefusalReportsTwice | src/fluvo/import_threaded.py:1804-1807 | the failing half: a server that refuses everything makes every mixed batch report rows twice |
| WorkerFacts.BatchJustified | src/fluvo/import_threaded.py:2026-2041 | every acknowledgement and every id map entry is backed by an exchange that carried that row's line, prepared by one of the three load paths, and answered that id for it |
| StoreFacts.EvidenceNamesTheRow | src/fluvo/import_threaded.py:2026-2041 | where the load paths agree on the columns to drop and none is dropped left of the id, the line so acknowledged holds the row's own sanitised id |
| StoreFacts.SendsItsIdIffKeepsLeftOfId | src/fluvo/import_threaded.py:1794-1850 | the worker sends the sanitised id of every row if and only if no column left of the id column is dropped |
| WorkerFacts.LoadLoopBound | src/fluvo/import_threaded.py:1780-1811 | at most n + floor(log2 n) loop iterations, n rows handed to the fallback, 3n + floor(log2 n) calls |
| LoadWorker.ExecuteLoadBatch | src/fluvo/import_threaded.py:1687-2354 | the worker computes exactly the outcome, history, iteration and fallback counts of `Execute` |
| LoadWorker.TryLoad | src/fluvo/import_threaded.py:1812-2347 | one request and the reaction to each class of answer and error: partial, read-timeout, 413, transient, serialization, permanent |
| LoadWorker.AbsorbAnswer | src/fluvo/import_threaded.py:2024-2133 | the id map loop and the treatment of partial answers |
| RequestShape.WorkerSends | src/fluvo/import_threaded.py:1752-1841 | a column `p` or `p/...` is left out of the worker's header and lines if and only if `p` or `p/id` is ignored; the others are sent in order, each cell from its header's column, the one at the id's place sanitised |
| RequestShape.TooShortMeans | src/fluvo/import_threaded.py:1790-1807 | a row is kept out of a chunk if and only if columns are ignored and it lacks one that is sent, or is empty |
| RequestShape.FallbackSends | src/fluvo/import_threaded.py:1531-1547 | the bulk fallback leaves out exactly the columns named in the ignore list as they stand |
| RequestShape.SingleSends | src/fluvo/import_threaded.py:1323-1357 | the single-record load leaves out `p` and `p/...` if and only if `p` is ignored, and puts the sanitised unique id under the first "id" |
| RequestShape.RequestsAreShaped | src/fluvo/import_threaded.py:1687-2354 | against every server, each line a worker ever sends is a row of its batch in one of those three shapes |
| RequestShape.FirstRequest | src/fluvo/import_threaded.py:1768-1811 | a batch first goes out whole, in the worker's shape, one line for each row in order |
| RequestShape.FallbackRequest | src/fluvo/import_threaded.py:1531-1555 | so does the batch of the fallback, in its shape |
| RequestShape.SingleRecordRequest | src/fluvo/import_threaded.py:1332-1360 | a row of header width is sent once, alone, in the single-record shape |
| RequestShape.OddRowsAreNotSent | src/fluvo/import_threaded.py:1334-1337 | a row of any other width fails in both fallbacks without a call |
| RequestShape.StreamSends | src/fluvo/import_threaded.py:333-360 | the streaming reader skips a row that lacks a column to be sent and sends the columns of the single-record rule |
| WorkerReactions.HalvingMeetsTheLimit | src/fluvo/import_threaded.py:2165-2260 | against a server that refuses requests above any size of at least one row, by 413 or a gateway error, every row is acknowledged, none fails and none needs the fallback |
| WorkerReactions.AlwaysRefused | src/fluvo/import_threaded.py:2135-2347 | against a server that always raises one error, every row fails once and in order; the fallback is tried for all of them, or for none after a read time-out (one call) or 413 |
| WorkerReactions.ThirdConflictFallsBack | src/fluvo/import_threaded.py:2225-2300 | two serialization conflicts halve the chunk and the third hands the quarter to the fallback |
| WorkerReactions.ConflictsInARow | src/fluvo/import_threaded.py:2225-2300 | conflicts are counted in a row, modulo three, and a normal answer starts the count afresh |
| WorkerReactions.LoneMissingRow | src/fluvo/import_threaded.py:2053-2133 | one row left out of the answer is recorded as failed without another call |
| WorkerReactions.CreditsMean | src/fluvo/import_threaded.py:2024-2041 | the id map has each acknowledged key with the id acknowledged last, the blank key where it is asked for |
| WorkerReactions.FallbackSkipsBlanks | src/fluvo/import_threaded.py:1573-1578 | a bulk load of the fallback reports no blank id, and every other acknowledged one if the id column is sent |
| WorkerReactions.BulkIdStays | src/fluvo/import_threaded.py:2070-2100 | where the bulk answer and the fallback name one key, the id of the bulk answer stays |
| WorkerReactions.ZeroIsCreatedInBulkOnly | src/fluvo/import_threaded.py:2030-2033 | an id of 0 counts as created in a bulk load and as a failure in a single-record load |
| LoadFallback.LoadBatchWithBinaryFallback | src/fluvo/import_threaded.py:1461-1684 | the recursive fallback computes `Fallback`: its id map, failed rows in order, and calls |
| LoadFallback.LoadRecordsIndividually | src/fluvo/import_threaded.py:1306-1454 | the single-record loop computes `Singles` |
| FallbackFacts.FallbackSettles | src/fluvo/import_threaded.py:1461-1684 | the fallback settles each of its rows exactly once against any server whose non-empty answers to several lines acknowledge one |
| FallbackFacts.BisectCallBound | src/fluvo/import_threaded.py:1588-1684 | at most 2n - 1 calls for n rows, whatever is answered |
| FallbackFacts.FallbackJustified | src/fluvo/import_threaded.py:1561-1574 | the fallback's id map entries pair a row's own sanitised id with the id answered for the line made of that row |
| Accounting.BatchCredits | src/fluvo/import_threaded.py:1687-2354 | every acknowledged row has its id map entry or is one of the counted loads whose id map is dropped |
| Accounting.DropsNone | src/fluvo/import_threaded.py:1595-1607 | no load is dropped when rows left out of a partial answer also fail alone |
| Accounting.Reconciles | src/fluvo/import_threaded.py:3721-3734 | created + failed never exceeds the total; for distinct keyed rows, created + failed + dropped + forgotten is the total |
| Accounting.BatchReconciles | src/fluvo/import_threaded.py:1687-2354 | for one batch and any progressing server that sum is the batch, so the report adds up if and only if nothing was dropped or forgotten |
| PassOne.RunThreadedPass | src/fluvo/import_threaded.py:2443-2644 | over any completion order and re-splitting: the pass is aborted only in force-create mode, exactly when 50 futures in a row loaded nothing, which stops it, or none loaded anything; a pass not stopped runs every row, its totals are those of its futures, and each row is failed, acknowledged or forgotten, with created + failed + dropped + forgotten the total |
| PassOne.OrchestratePass1 | src/fluvo/import_threaded.py:2647-2746 | the same for the source rows through grouping, so that in standard mode the pass is never aborted and always accounts for its rows; with an unknown group column nothing is loaded or reported |
| PassOne.Submit | src/fluvo/import_threaded.py:2484-2545 | throttle re-splitting keeps every row in order; a batch within the recommended size goes out whole, a longer one in parts of that size, the last possibly shorter |
| Assumptions.HolesLoseRows | src/fluvo/import_threaded.py:2052-2055 | with None inside full-length answers, all but one row of every batch of two or more are forgotten |
| Assumptions.LateCreationIsLost | src/fluvo/import_threaded.py:1595-1607 | against a server that loads a left-out row when it is sent alone, every batch of two or more has exactly one row created and reported nowhere |
| FallbackRefinement.FallbackRefinesSingles | src/fluvo/import_threaded.py:1461-1684 | against an all-or-nothing upserting server the fallback gives the id map, store and failed rows of loading one by one, in at most 1 + 2k ceil(log2 n) calls for k bad rows |
| FallbackRefinement.StoreLeavesNoneOut | src/fluvo/import_threaded.py:1588-1607 | the upserting store meets the condition on left-out rows |
| RowIsolation.BatchIsolates | src/fluvo/import_threaded.py:1780-2354 | when each request with bad rows is refused in a way that isolates, or answered with ids for exactly its good rows, a batch is settled exactly once, only bad rows fail, and every created row is in the id map |
| RowIsolation.OtherRefusalsFailAll | src/fluvo/import_threaded.py:2061-2163 | the converse: any other refusal of the first request fails every row of the batch, good or bad |
| HistoryFacts.BatchGenuine | src/fluvo/import_threaded.py:1687-2354 | every request the worker sends carries lines of its own batch only, and every reply in the trace is the server's |
| SharedStore.TraceIsGenuine | src/fluvo/import_threaded.py:2443-2644 | however the workers' calls interleave, every request carries source rows only and every reply is the shared server's |
| SharedStore.JoinedFacts | src/fluvo/import_threaded.py:2443-2644 | the joined outcome of the workers settles all batches once, with the shared exchanges as evidence |
| SharedStore.InTurnEnds | src/fluvo/import_threaded.py:2443-2644 | every server and every list of batches has such a pass |
| PassEffect.CrewLoads | src/fluvo/import_threaded.py:2443-2746 | after a pass of interleaved workers over a server whose refusals isolate, the store holds every accepted row, the id map is exactly their keys with the stored ids, and the failed rows are the bad ones |
| PassEffect.RunBatchesLoad | src/fluvo/import_threaded.py:1687-2354 | the same for one connection, with everything else in the store untouched |
| PassEffect.HistoryAsLoads | src/fluvo/import_threaded.py:1780-2354 | whatever prefix of the calls was made, the store is that of loading some of the rows one by one |
| AmbiguousFaults.LostRepliesAreHarmless | src/fluvo/import_threaded.py:2136-2163 | whichever calls fail at the client after being committed or not: Pass 1 and one fault-free single-record pass over the failed rows leave exactly the good rows upserted and exactly the bad rows failed |
| AmbiguousFaults.ThreadedLostRepliesAreHarmless | src/fluvo/import_threaded.py:2443-2644 | the same for workers whose calls interleave in any order on the one store |
| AmbiguousFaults.RunBatchesFacts | src/fluvo/import_threaded.py:1687-2354 | settlement, evidence and genuineness for a run of many batches over one connection |
| Batching.RecursiveCreateBatches | src/fluvo/import_threaded.py:835-915 | the batching loops compute `Batches` |
| BatchingFacts.GroupedBatching | src/fluvo/import_threaded.py:835-915 | concatenated batches are the one stable sort by the group columns, empty values last; batches are non-empty, constant in every group column and within the size outside one-to-many mode |
| BatchingFacts.BatchesFilled | src/fluvo/import_threaded.py:845-915 | outside one-to-many mode every batch is full or the last of its group |
| BatchingFacts.OneToMany | src/fluvo/import_threaded.py:845-868 | one-to-many batches concatenate to the input and a row with an id only ever opens a batch |
| BatchingFacts.MissingColumnDropsAll | src/fluvo/import_threaded.py:869-877 | a group column missing from the header yields no batch at all |
| SortOrder.StableSortUnique | src/fluvo/import_threaded.py:879-884 | a stable sort by columns is unique, so naming it names one list |
| SortOrder.CellLeqMeans | src/fluvo/import_threaded.py:879-884 | the sort puts empty values last and others in string order, by the first different character |
| SortOrder.LexLeqMeans | src/fluvo/import_threaded.py:869-915 | between rows the first group column that differs decides |
| XmlId.ToXmlidIsStable | src/fluvo/lib/internal/tools.py:46-63 | sanitising an id twice is sanitising it once |
| XmlId.ToXmlidMeans | src/fluvo/lib/internal/tools.py:46-63 | commas, line breaks, bars and spaces become underscores and other white space goes from both ends; nothing else changes |
| ColumnNames.BaseIsField | src/fluvo/import_threaded.py:1767-1777 | the field of a column is what stands before its first slash |
| Basics.Chunks | src/fluvo/lib/internal/tools.py:18-39 | slices of exactly the given size, the last possibly shorter, none empty, that concatenate to the input |
| Packing.GreedyIsOptimal | src/fluvo/import_threaded.py:348-389 | greedy packing is an order-preserving partition into legal parts, and no such partition has fewer parts |
| Packing.StreamCsvBatches | src/fluvo/import_threaded.py:333-389 | the streaming batcher yields that packing of the rows it does not skip: no batch above a limit unless it is one row, and each full or without room for the next row |
| WireValues.HashableRoundTrip | src/fluvo/import_threaded.py:3004-3020 | a payload survives the way into a dictionary key and back, up to list against tuple, if and only if each replace command in it has a list third |
| PreparedWrites.PreparePass2Data | src/fluvo/import_threaded.py:474-772 | the search for deferred columns and the preparation loop with its look-up cache compute `Prepared` |
| PreparedWrites.LastColumnWins | src/fluvo/import_threaded.py:476-515 | the deferred fields written are those with a column, each from its last column |
| PreparedWrites.PreparedIsSound | src/fluvo/import_threaded.py:579-768 | distinct sanitised ids and an injective id map give distinct database ids, each with its own row's values |
| PreparedWrites.PreparedIsComplete | src/fluvo/import_threaded.py:579-768 | no row with an id and a value to write is left out |
| PreparedValues.PreparedIsExactly | src/fluvo/import_threaded.py:474-772 | the prepared list is exactly the rows, in order, whose sanitised id has a non-zero id in the id map and that have something to write: for the last column of each deferred field the referenced id, for a many2many field (6, 0, ids) with the resolved parts in order, for other fields the text if it was not taken for an external id |
| PassTwo.PlanPass2 | src/fluvo/import_threaded.py:3022-3090 | grouping, chunking, packing and re-splitting hand each prepared row to the workers once, and no RPC exceeds the batch size |
| PassTwo.IndividualWrites | src/fluvo/import_threaded.py:3022-3053 | each payload's records go out in writes of the full batch size, the last possibly smaller |
| PassTwo.PackWrites | src/fluvo/import_threaded.py:3054-3090 | the super-batches are the greedy packing of the writes, hence optimal, and none had room for the next write |
| PassTwo.OrchestratePass2 | src/fluvo/import_threaded.py:2931-3105 | preparation and planning together, for all inputs with distinct sanitised ids |
| PassTwo.PassTwoIsConfluent | src/fluvo/import_threaded.py:3004-3105 | any interleaving of the workers, with any time-outs and hidden commits, leaves the store of writing the prepared rows one by one when nothing is reported failed |
| Writes.RunSettles | src/fluvo/import_threaded.py:2386-2440 | with failures too: every row is in the store or reported, and no record changed except to hold its own row |
| Writes.PassReconciles | src/fluvo/import_threaded.py:2386-2440 | successful and failed writes of a finished pass add up to the prepared rows, in at most four calls for each operation |
| Writes.ExecuteWriteBatch | src/fluvo/import_threaded.py:2357-2440 | successful + failed is the number of ids; an operation fails exactly when none of its four attempts is answered after time-outs only; the calls and the back-off of 2, 4 and 8 seconds are exactly those of the time-outs |
| Writes.GroupedKeepsRows | src/fluvo/import_threaded.py:3022-3030 | grouping keeps each row once and has one group for each distinct payload |
| WriteThreaded.ExecuteBatch | src/fluvo/write_threaded.py:58-134 | success + failed is the number of lines; an unreadable line fails the whole batch before anything is sent; otherwise the failed ids are those of the unanswered RPCs |
| WriteThreaded.LineMeans | src/fluvo/write_threaded.py:84-95 | a line is readable if and only if its first id cell is a number and it is no longer than the header; it writes every other cell under its column's name, the last of a name counting |
| WriteThreaded.WriteDataIsConfluent | src/fluvo/write_threaded.py:76-119 | over any interleaving of batches the store is that of writing line by line, or each line is stored or reported |
| CrashRecovery.CrashConvergence | src/fluvo/import_threaded.py:3603-3759 | workers making their calls in any order, a crash at any step and any number of new starts: a run that completes leaves every accepted row in place, its relations written, all else untouched, from any checkpoint that is absent, of other content, unfinished or sound |
| CrashRecovery.ImportedIsUnique | src/fluvo/import_threaded.py:3603-3759 | two completed imports differ in nothing but the ids given to new records |
| CrashRecovery.NextKeeps | src/fluvo/import_threaded.py:3603-3701 | the invariant that every call of a worker, write, checkpoint, crash and start keeps |
| CrashRecovery.PassLoads | src/fluvo/import_threaded.py:2443-2746 | when the workers have ended, the store is ready for Pass 2 and the merged id map is that of the accepted rows |
| CrashRecovery.ResumeSkipsPassOne | src/fluvo/import_threaded.py:3274-3287 | once Pass 1 is saved, a crash anywhere in Pass 2 costs no load: a resumed start goes on with the saved id map |
| CrashRecovery.CompletedStartsOver | src/fluvo/import_threaded.py:3274-3287 | after an import that completed and deleted its checkpoint the next one starts with the rows, resuming or not |
| UninterruptedRun.CrashesLeaveNoTrace | src/fluvo/import_threaded.py:3603-3759 | for every crashed and completed import there is a single uninterrupted run, with real workers, that ends with exactly the same store |
| UninterruptedRun.ConvergesIffCheckpointIsSound | src/fluvo/lib/checkpoint.py:48-70 | every completed run from a checkpoint leaves the imported target if and only if it is for other content, unfinished, or names exactly the accepted rows of a store that holds them |
| UninterruptedRun.HashCollisionLosesRows | src/fluvo/lib/checkpoint.py:48-70 | for every job: a complete checkpoint under the same hash, over a store that lacks an accepted row, has a run that completes without it |
| CheckpointFile.CheckpointStore.LoadCheckpoint | src/fluvo/lib/checkpoint.py:167-222 | a checkpoint is returned exactly when it is there for this content, and one for other content is deleted |
| CheckpointFile.CheckpointStore.Save | src/fluvo/lib/checkpoint.py:110-164 | the file is replaced whole or left alone |
| CheckpointFile.CheckpointStore.BeginImport | src/fluvo/import_threaded.py:3274-3287 | the start of an import is the `Start` step of the recovery protocol |
| FlowVars.ReturnedIsTheSolution | src/fluvo/lib/flow.py:120-161 | if resolution returns, its result is the only map with resolved[x] = interpolate(raw[x], resolved) for all declared names, and the graph is fully defined and acyclic |
| FlowVars.OrderIndependence | src/fluvo/lib/flow.py:159-161 | two visiting orders that both return agree |
| FlowVars.ErrorsAreTruthful | src/fluvo/lib/flow.py:137-152 | every error names a real cycle, undefined name, unset variable or chain of more than 25 names |
| FlowVars.ResolvableIffDefinedAndAcyclic | src/fluvo/lib/flow.py:120-161 | some visiting order resolves the file if and only if every name is defined and none depends on itself |
| FlowVars.ShallowFlowsResolve | src/fluvo/lib/flow.py:120-161 | a fully defined file whose chains have at most 25 names always resolves, in every order |
| FlowVars.CapIsExact | src/fluvo/lib/flow.py:148-152 | with at most one reference for each variable, every order resolves if and only if the file is fully defined and no chain has more than 25 names |
| FlowVars.DepthDependsOnOrder | src/fluvo/lib/flow.py:148-152 | every such file that is defined and acyclic with a longer chain resolves in one order and fails in another |
| FlowVars.Resolver.Resolve | src/fluvo/lib/flow.py:137-157 | the recursive method over the shared dictionary and stack computes `ResolveOne` and leaves the stack as it was |
| FlowVars.ResolveVars | src/fluvo/lib/flow.py:120-161 | the driver returns the map or the error of `ResolveAll` |
| Throttle.EveryRunAccounts | src/fluvo/lib/throttle.py:95-180 | in every run the class counters add up to the requests, the window is the last responses, recovery_requests times recoveries is at most the healthy responses, and delay and factor are those of the current health once it has changed |
| Throttle.LevelIsBand | src/fluvo/lib/throttle.py:114-131 | for ordered thresholds the level is at most Healthy, Degraded or Stressed exactly when the sum of the window is below that threshold times its length |
| Throttle.SlowerIsNoBetter | src/fluvo/lib/throttle.py:114-131 | a window with slower responses never has a better level |
| Throttle.CountersAreBands | src/fluvo/lib/throttle.py:133-142 | in every run each class counter is the number of responses that found the window in its band |
| Throttle.HealthFollowsBand | src/fluvo/lib/throttle.py:144-165 | a worse band is the health at once; a better one counts only after enough healthy windows in a row |
| Throttle.ExtremesAreTimes | src/fluvo/lib/throttle.py:95-108 | minimum and maximum are those of the recorded times, the maximum from 0 |
| Throttle.DelaysAddUp | src/fluvo/lib/throttle.py:204-215 | the total delay is the sum of the delays applied |
| Throttle.BoundedRecovery | src/fluvo/lib/throttle.py:95-165 | window_size + recovery_requests - 1 fast responses in a row end in Healthy from any state, and so does every longer row |
| Throttle.RecoveryBoundIsTight | src/fluvo/lib/throttle.py:114-165 | for every window of at least 1, every recovery requirement of at least 1 and ordered thresholds, one response fewer does not always recover |
| Throttle.ImprovementIsComplete | src/fluvo/lib/throttle.py:145-165 | every improvement lands in Healthy, and health is never better than the window's level |
| Throttle.BatchSizeBounds | src/fluvo/lib/throttle.py:190-202 | in every run the recommended size is at least the minimum and, with factors up to 1, at most the original unless it is the minimum |
| Throttle.BatchSizeIsShare | src/fluvo/lib/throttle.py:190-202 | the recommended size is the share rounded down, or the minimum, and counts as a reduction exactly when the share is less than the whole |
| Throttle.ThrottleController.RecordResponse | src/fluvo/lib/throttle.py:95-112 | the whole new state after a response |
| Throttle.ThrottleController.UpdateHealth | src/fluvo/lib/throttle.py:114-165 | the whole new state after the health update |
| Export.BatchPartitions | src/fluvo/export_threaded.py:203-339 | for every pattern of errors a batch is split exactly into exported and failed ids, in at most 2n - 1 reads |
| Export.PartitionIffReadsAll | src/fluvo/export_threaded.py:203-339 | in read mode exported and failed ids are the batch if and only if every read made returns all it was asked for, and never more than the batch |
| Export.SplittingIsolates | src/fluvo/export_threaded.py:203-339 | when reads fail because of bad records, exactly those fail and the others are exported, both in order |
| Export.FewReads | src/fluvo/export_threaded.py:203-339 | isolating k bad records among n takes at most 1 + 2k ceil(log2 n) reads |
| Export.OtherErrorFailsAll | src/fluvo/export_threaded.py:291-339 | an error of any other kind fails the batch at once, without a split |
| Export.AnySplitIsReached | src/fluvo/export_threaded.py:203-339 | every division of the ids into good and bad is the outcome of some server |
| Export.EmptyReadIsSilent | src/fluvo/export_threaded.py:289-290 | an empty read, whatever the batch, leaves its ids neither exported nor failed |
| Export.ExportThread.ExecuteBatch | src/fluvo/export_threaded.py:231-339 | the worker method computes `Batch` and appends its failures to the object |
| ExportSession.RunExport | src/fluvo/export_threaded.py:821-971 | one run turns the session as `After` says, asks exactly for the pending ids in batches of the full size, the last possibly smaller, and succeeds when nothing failed |
| ExportSession.RunsPartition | src/fluvo/export_threaded.py:821-971 | over any number of runs, output, failures of the last run and ids skipped because the log had them are the ids, each once |
| ExportSession.SuccessIsCompleteIffLogIsForeign | src/fluvo/export_threaded.py:859-872 | a reported success always means a complete output if and only if the log kept from an earlier session names none of the ids |
| ExportSession.ExportWithResumes | src/fluvo/export_threaded.py:874-971 | a new session over a kept log and any number of resumed runs end as `SessionAfter` says |
| ExportSession.ProcessBatches | src/fluvo/export_threaded.py:623-680 | in any completion order the log is the output, and log and failures partition the ids |
| SkipUnchanged.AgreementIsSharedKeys | src/fluvo/lib/idempotent.py:239-415 | the vectorised filter keeps the rows of the loop on every input if and only if every existing record a row can match has every compared field |
| SkipUnchanged.RowAgreement | src/fluvo/lib/idempotent.py:239-415 | without that condition the join still never drops a row the loop keeps |
| SkipUnchanged.NormStrCompares | src/fluvo/lib/idempotent.py:15-92 | `compare_values` is equality of normalised strings |
| SkipUnchanged.LoopDropsMeans | src/fluvo/lib/idempotent.py:41-92 | the loop drops a row if and only if it is about an existing record and every compared cell it has shows the record's value, if any: nothing or blank for None, False, "" and [], the text without outer white space, the number, the id of a pair, or the whole list |
| SkipUnchanged.JoinDropsMeans | src/fluvo/lib/idempotent.py:326-395 | the join does the same for the fields that some record has, an absent value counting as nothing |
| SkipUnchanged.KeptMeans | src/fluvo/lib/idempotent.py:256-293 | the kept rows are those to be kept, in order |
| SkipUnchanged.FilterUnchangedPyloop | src/fluvo/lib/idempotent.py:239-293 | the loop keeps the rows of `LoopKeeps` in order and counts new, changed and unchanged rows |
| SkipUnchanged.FilterUnchangedRows | src/fluvo/lib/idempotent.py:296-415 | padding, join on the stripped id, three-valued comparison and selection by row number keep the rows of `JoinKeeps` in order and count new, changed and unchanged rows |
| SkipUnchanged.JoinRow | src/fluvo/lib/idempotent.py:330-390 | one row through the join: matched and kept as the specification says |
| SkipUnchanged.AnyHorizontal | src/fluvo/lib/idempotent.py:360-385 | the three-valued disjunction over the columns is a differing non-null cell, for a matched row |

## Left out

- PassOne.RunThreadedPass: each batch meets its own adversary, which covers every interleaving of replies; that the workers see one store is stated in SharedStore and PassEffect.
- CrashRecovery.CrashConvergence: the server loses no replies (AmbiguousFaults is about those) and its refusals isolate, since after a read time-out or an empty answer naming rows good rows fail; Pass 1 ends when all its workers have; settings that differ between two starts are not modelled.
- UninterruptedRun.ConvergesIffCheckpointIsSound: leaves out checkpoints whose wrong id map happens to write the same relations as the right one.
- FlowVars.DepthDependsOnOrder: at most one reference for each variable; with more, which names are still open when a search gets deep depends on the order inside templates too.
- Writes.RunSettles: the pass is not aborted; giving up after 50 failed batches is modelled for Pass 1 only.
- Packing.StreamCsvBatches: with an ignore list that keeps no column the source raises an error; the method requires a kept column.
- WorkerFacts.LoadLoopBound: needs progressing answers, because the fallback inside the loop would not end without them.
- ExportSession.RunExport: reads return exactly the requested records and transforms do not raise; a crash in the middle of a batch is not modelled, since ids are logged before their data is written; a run that writes nothing leaves an older output file in place.
- SkipUnchanged.AgreementIsSharedKeys: both filters strip the same white space here, while Polars may not strip the separators U+001C to U+001F that Python strips; ids of the join are unique, as dictionary keys are.
- SkipUnchanged.FilterUnchangedRows: the number of fields compared is not modelled, and Python's `str` is any function that shows numbers and lists as something without outer white space.
- FlowVars.ResolveVars: values arrive split at their markers; the regular expression that finds the markers is not modelled.
- Throttle.EveryRunAccounts: times are real numbers, so rounding of sums and averages is not modelled.
- Error texts: an error's class (read-timeout, 413, transient, serialization, permanent) is part of the server's answer; the text matching that finds it is not modelled.
- The reason column of the fail file: failed rows are the rows themselves.
- `_create_xmlid_entry`, RPC transport, connections, progress output and file formats: input and output.
- Waiting: back-off in Pass 2 is counted in seconds, other delays are not modelled.
- An `ids` of False counts as a permanent error; the other error values of a load answer are oracle inputs.
- Trace of exchanges and acknowledgements: methods keep it beside their results so that contracts can speak of it; the source has no such list.
- `current_data.sort` sorts the list in place, which the caller's list sees; the model sorts a value.
- The fail file over several retries and over a checkpoint resume, and the mapping of failed Pass 2 ids back to source rows.
- Dictionary keys 1, 1.0 and True are one key in Python; values here are texts, whole numbers, lists and tuples.
- `skip_existing`, relation pre-resolution, cleaning, `sort.py`, `retry_with_backoff`, `_effective_raw_vars` and flow file validation.
