# Notely, verified

A Dafny model of the parts of Notely on which its promise rests: "AI can fail; your knowledge
cannot". Notely records or imports meetings, turns each transcript into a structured meeting
representation with the help of a language model, stores it, and keeps a searchable index of the
user's Markdown notes. The engine is written in Rust, its desktop client in Dart.

`dafny verify dfyconfig.toml` checks everything.

## How the model is built

| files | what they model |
|---|---|
| `Text`, `Greedy`, `WordSets` | strings as Rust's standard library treats them; packing weights greedily; word overlap and similarity |
| `Domain`, `Preprocess`, `TranscriptChunking` | transcripts, their normalization and their division into chunks for the model |
| `MarkdownChunker`, `VaultTables`, `VaultIndex` | notes, their chunks, and the index that follows them |
| `Fusion`, `VectorCodec`, `Answers` | hybrid ranking, stored vectors, answers with citations |
| `Utf8`, `Framing`, `EngineClient` | decoding of bytes that arrive in chunks; the client's line framing; its connection and requests |
| `Extraction`, `Synthesis`, `Provenance`, `Artifacts` | grounding what a model extracted, reconciling what it wrote, where evidence comes from, and what may be stored |
| `Jobs`, `Events`, `Databases`, `Orchestration`, `Recovery` | jobs, progress events, the meeting store, one processing run, and the engine over any number of process lives |

Objects of the source that change are classes (`SearchIndex`, `JobRegistry`, `Orchestrator`, `Engine`,
`Client`, ...), loops are loops, and every such method is proved against a function or predicate about
which the promises are then proved as lemmas.

**Time and failure.** In the index, `Vault.Drift` lets any edits happen between any two file accesses,
`Meanwhile` lets other passes run, and stop, at every await of an embedding pass, and every statement
may fail or be the last one. The ghost field `torn` names the notes whose vectors a stopped store has
spoilt since their last completed one. In the pipeline, `Database.Others` lets other runs perform any of
their writes at every await, and the ghost field `log` records who wrote what, so that what one run does
is told apart from what others do. Each external call, store write or model answer may fail; `Crash`
stands for the end of the process at that point, after which a run does nothing more. Six constants
name favourable circumstances for some exact claims: `alone` (there are no other runs, and then nobody
else is on record), `steady` (nothing fails, nobody cancels), `recording` (writing a status does not
fail, whatever else does), `quiet` (no edits and no other passes), `sturdy` (a store of vectors that
begins also ends) and `healthy` (no statement of the index fails, so that its passes succeed). Without
them nothing is assumed.

**Steps of a run.** Every run records its steps in order: the events it sends, the stages its job enters,
each check that found no cancellation, each read and write that worked. `Events.FullRun` is what a complete
run does, spelt out step by step in `FullRunIs` and `EnrichmentIs`. A run that fails has done the steps before
some step and ends with an error that belongs to that step (`ErrorNamesTheStep`).

**What is proved about a run.** `Databases.Database.Valid` is an invariant of the shared store across
all runs, failures and crashes: Processing implies a stored transcript, Ready implies all artifacts, and
every stored representation passes validation and was derived from chunks of that meeting's own
transcript (`Artifacts.Accepted`); `Artifacts.AcceptedInventsNothing` says what a reader can conclude
from that. `Keeps` says that transcripts never change and artifacts never disappear.

## What the proofs turned up

* **A torn vector write can stick.** The comment on the embedding pass calls it self-healing. A note may
  be pending although it was already embedded for its current content (its index fingerprint is the
  stale one). If rewriting its vectors stops half way, the next index pass makes all fingerprints agree
  while vectors are missing, and nothing marks the note pending again (`TornStoreIsNeverRepaired`). A
  stopped write of any rows is harmless exactly when the note does not carry its current fingerprint as
  embedded, or the rows that got written are those of its current content (`TearIsSafeIff`). In particular a
  write of older content can do harm without losing a row (`TornStoreOfOldContent`); that takes two embedding
  passes at once, which the index as a library admits and the engine's flag rules out. A torn note is trusted
  again after its next completed write or its next edit (`StoringKeepsTrust`, `EditsHealTears`).
* **A torn deletion can stick.** The walk passes over directories it cannot read, so a pass may prune notes
  that still exist. Deletion is three statements without a transaction: stopping between them is harmless
  exactly when the note is gone or changed, or has no rows anyway (`HalfDeletionIsSafeIff`), and else no later
  pass brings the rows back while the note stays unchanged (`HalfDeletionIsNeverRepaired`).
* **Orphaned chunk rows.** If indexing a new note stops after chunk rows but before its source row, and
  the note is then removed, no number of passes prunes the rows while the note is away
  (`OrphanedRowsSurvive`). An incremental pass equals a rebuild exactly when there are no such rows
  (`SyncEqualsRebuild`).
* **Fingerprints must be fresh.** A fingerprint is modification second and size. An edit keeps the
  invariant exactly when the note's recorded fingerprints differ from the new one, or what is stored is
  right for the new content anyway (`AnyEditKeepsTrustIff`), and exactly then the next pass sees it
  (`EditIsSeenIff`); `ReusedFingerprintHidesAnEdit` is an instance. The other index results assume fresh
  fingerprints.
* **A comment is wrong.** At engine/src/search/index.rs:368 stale rows of an unreadable note are said to
  be pruned below. They never are, as the note is still listed: after a pass the rows of a listed note are
  unchanged if it is unreadable, and those of its content exactly when it is readable
  (`UnreadableNotesKeepTheirRows`; an instance is `StaleRowsAreNotPruned`). The model follows the code.
* **Reconciliation is not idempotent.** A dropped invention can be replaced by a finding's value the
  next time. `ReconcileOnRepeat` gives the exact condition and shows that two passes always suffice.
* **Client decoding is per chunk.** Framing is independent of how decoded text is cut
  (`ChunkingIsInvisible`). For bytes, converting chunk by chunk gives the text of the whole exactly when
  no chunk begins with a continuation byte and none but the first bytes of all with a byte order mark,
  which Dart's decoder discards at the beginning of every call (`ConvertingByChunks`). The lines handed on
  and the remainder are those of the whole exactly when no chunk begins with a continuation byte and every
  mark so discarded would have been trimmed off its line anyway (`ChunksShowIff`). Instances are
  `SplitCharacterIsLost` and `MarkIsLost`.
* **An incompatible engine leaves requests hanging.** A lost connection fails everything that is pending
  (`OnDisconnected`). When the greeting finds another protocol version the client closes the connection
  itself and fails nothing; such requests wait for their timeouts (`Handshake`).
* **61 is sharp.** With lists of up to 61 entries agreement of both searches always ranks first; with
  62 a fusion may put a passage that only one search found first (`SixtyTwoTies`).

## Model

| member | source | states |
|---|---|---|
| Text.WhiteSpaceIs | engine/src/preprocess/mod.rs:83-84 | which characters are white space |
| Text.WordsOfJoin | engine/src/preprocess/mod.rs:82-85 | words joined by single spaces split back into the same words |
| Text.JoinOfSplit | engine/src/search/chunker.rs:32 | splitting a text at a character and joining it again gives the text |
| Text.BlankHasNoWords | engine/src/preprocess/mod.rs:56-59 | a text has no words exactly when it is blank |
| Text.CollapsingKeepsMarks | engine/src/preprocess/mod.rs:82-85 | the characters that are not white space and where white space separates them are the same before and after collapsing |
| Text.MarksDetermine | engine/src/preprocess/mod.rs:82-85 | and they determine a single-spaced text, so collapsing can give only one result |
| Text.CollapsingIsFinal | engine/src/preprocess/mod.rs:82-85 | exactly the single-spaced texts are left as they are |
| Text.TrimOf | engine/src/search/qa.rs:112 | trimming takes off exactly the white space around a text |
| Text.Lines | engine/src/search/chunker.rs:32 | the lines of a text contain no newline and joined with newlines give the text |
| Text.SplitOfJoin | engine/src/search/chunker.rs:32 | so they are the only such list |
| Text.LineIsNumbered | engine/src/search/chunker.rs:32 | a line stands at the index that counts the newlines before it |
| Text.DecimalIsInjective | apps/desktop/lib/ipc/engine_client.dart:320 | different numbers have different decimal request ids |
| Text.DecimalReads | engine/src/preprocess/chunking.rs:109 | a printed number consists of digits without a leading zero and reads back as the number |
| Greedy.StaysAhead | engine/src/preprocess/chunking.rs:86-100 | the k-th greedy boundary is never before the k-th boundary of any admissible partition |
| Greedy.Fewest | engine/src/preprocess/chunking.rs:86-100 | a greedy partition has the fewest ranges of all admissible ones |
| Greedy.Unique | engine/src/preprocess/chunking.rs:86-100 | there is only one greedy partition |
| Greedy.Cuts | engine/src/search/chunker.rs:65-76 | the greedy partition of any weights under any budget exists and is computed |
| TranscriptChunking.SegmentsToText | engine/src/preprocess/chunking.rs:63-73 | one line per segment with its speaker and trimmed text, without trailing white space |
| TranscriptChunking.PartitionSegments | engine/src/preprocess/chunking.rs:84-101 | the first pass yields contiguous ranges that are exactly the greedy partition of the segment lengths |
| TranscriptChunking.BuildChunks | engine/src/preprocess/chunking.rs:103-119 | chunk k carries the segments, bounds, times, text and id of range k |
| TranscriptChunking.AttachContext | engine/src/preprocess/chunking.rs:121-133 | every chunk gets the tail of its predecessor and the head of its successor, and nothing else changes |
| TranscriptChunking.ChunkSegments | engine/src/preprocess/chunking.rs:80-136 | the whole function produces a chunking: greedy ranges, each with its own content and both contexts |
| TranscriptChunking.Tail | engine/src/preprocess/chunking.rs:139-151 | a suffix of the given number of characters, or everything |
| TranscriptChunking.Head | engine/src/preprocess/chunking.rs:154-159 | a prefix of the given number of characters, or everything |
| TranscriptChunking.ChunkingIsLossless | engine/src/preprocess/chunking.rs:75-80 | the chunks' segments, put together, are the segments of the transcript |
| TranscriptChunking.EveryChunkFits | engine/src/preprocess/chunking.rs:75-80 | chunks are non-empty and contiguous; the bytes of their trimmed texts, each with a newline, are within the budget unless there is a single segment, and with the next segment they are not |
| TranscriptChunking.ChunkCarries | engine/src/preprocess/chunking.rs:103-119 | a chunk is named after its position, starts with its first and ends with its last segment, and its text are the lines spoken in it |
| TranscriptChunking.SpokenLine | engine/src/preprocess/chunking.rs:63-73 | such a line names the speaker, or nobody known, and what was said, trimmed |
| TranscriptChunking.ContextIsAround | engine/src/preprocess/chunking.rs:121-133 | all chunks but the first and the last have the end of the one before and the beginning of the one after as context, if any is wanted |
| TranscriptChunking.ChunkingIsMinimal | engine/src/preprocess/chunking.rs:80-101 | no contiguous division within the budget has fewer chunks, and none gets further with as many |
| TranscriptChunking.ChunkingIsDeterministic | engine/src/preprocess/chunking.rs:75-80 | segments and configuration determine the chunks |
| TranscriptChunking.ChunkIdIsInjective | engine/src/preprocess/chunking.rs:109 | chunk ids are distinct |
| MarkdownChunker.Paragraphs | engine/src/search/chunker.rs:56-68 | the paragraphs are the maximal runs of non-blank lines, in order, and cover every non-blank line |
| MarkdownChunker.ChunkMarkdown | engine/src/search/chunker.rs:30-80 | the scanning loop terminates and returns the greedy packing of the paragraphs of the text (what these chunks hold of the text is `EveryLineIsKept` and `NothingElseIsKept`) |
| MarkdownChunker.ChunkText | engine/src/search/chunker.rs:40-52 | a chunk starts and ends on non-blank lines and its text is the non-blank lines of its range joined |
| MarkdownChunker.ChunksSplitNoParagraph | engine/src/search/chunker.rs:30-80 | between consecutive chunks there is a blank line and nothing else, so no paragraph is split |
| MarkdownChunker.EveryLineInOneChunk | engine/src/search/chunker.rs:30-80 | of any list of lines, every non-blank one lies in exactly one chunk |
| MarkdownChunker.EveryLineIsKept | engine/src/search/chunker.rs:30-80 | over the text: each of its non-blank lines is a line of the text of exactly one chunk, the one whose range holds the number of newlines before it |
| MarkdownChunker.NothingElseIsKept | engine/src/search/chunker.rs:30-80 | over the text: each line of a chunk is a non-blank line of the text from the range of the chunk |
| MarkdownChunker.ChunksAreApart | engine/src/search/chunker.rs:40-52 | the ranges of chunks are in order and disjoint |
| MarkdownChunker.ChunksFit | engine/src/search/chunker.rs:68-77 | the bytes of a chunk and one newline are within the budget, or it is a single paragraph |
| MarkdownChunker.ChunksAreFull | engine/src/search/chunker.rs:68-77 | with the paragraph that follows it a chunk would not be within the budget |
| MarkdownChunker.ChunksAreFewest | engine/src/search/chunker.rs:68-77 | no division of the paragraphs within the budget has fewer chunks |
| MarkdownChunker.FindHeading | engine/src/search/chunker.rs:83-94 | the loop returns the note's first heading |
| MarkdownChunker.HeadingIsFirst | engine/src/search/chunker.rs:83-94 | which is that of the first line with one; none exactly when no line has one |
| MarkdownChunker.FirstHeadingIs | engine/src/search/chunker.rs:83-94 | over the text: the heading of the first line that is white space, some `#` and a text that is not blank; none exactly when no line is |
| MarkdownChunker.CollapsedDropsMarker | engine/src/search/chunker.rs:97-100 | of the collapsed passage exactly the leading `#` and the space behind them are missing |
| MarkdownChunker.Snippet | engine/src/search/chunker.rs:97-107 | the collapsed passage, or its first characters up to the limit, without trailing blanks, and an ellipsis |
| Fusion.Absorb | engine/src/search/index.rs:577-582 | one ranked list enters the maps: scores add up, the first passage of a key stays |
| Fusion.Tally | engine/src/search/index.rs:573-582 | after both lists the maps hold the summed score and the lexical copy of every key |
| Fusion.Rank | engine/src/search/index.rs:583-588 | whatever order the map iterates in, all keys come out once, by falling score |
| Fusion.FuseRrf | engine/src/search/index.rs:573-590 | distinct keys, min(limit, number of keys) of them, sorted by summed score, none left out that scores more, lexical copies kept |
| Fusion.ScoreOfPlaces | engine/src/search/index.rs:577-581 | in lists without repeated keys place i, counted from 0, scores 1/(i+61), and places in both lists add up |
| Fusion.FusionHoldsPassages | engine/src/search/index.rs:573-590 | a fusion holds passages of the lists, lexical copies first, no chunk of a note twice, and every chunk unless it is full |
| Fusion.FirstIsEarliest | engine/src/search/index.rs:582 | the copy that represents a key is its first in a list |
| Fusion.BothBeatOne | engine/src/search/index.rs:24 | with lists of at most 61 a key found by both searches outscores every key found by one |
| Fusion.AgreementRanksFirst | engine/src/search/index.rs:573-590 | with such lists the passages found by both precede all others in the result |
| Fusion.AgreementIsKept | engine/src/search/index.rs:573-590 | the limit drops a passage found by both only if everything kept was found by both |
| Fusion.SixtyTwoTies | engine/src/search/index.rs:573-590 | with lists of 62 this fails: an example of a fusion whose first passage was found by one method and whose second by both |
| VectorCodec.EncodeVector | engine/src/search/index.rs:593-599 | four little-endian bytes per word |
| VectorCodec.DecodeVector | engine/src/search/index.rs:602-615 | the words of the longest prefix whose length is a multiple of four |
| VectorCodec.LittleEndian | engine/src/search/index.rs:602-615 | a byte counts 256 times as much as the one before it |
| VectorCodec.DecodeAfterEncode | engine/src/search/index.rs:593-615 | decoding what was encoded gives the vector back |
| VectorCodec.EncodeAfterDecode | engine/src/search/index.rs:593-615 | encoding what was decoded gives the bytes back, up to three trailing ones |
| VaultTables.EditsKeepTrust | engine/src/search/index.rs:318-327 | edits, creations and removals with fresh fingerprints never falsify the index invariant, nor spoil a note that is not torn |
| VaultTables.EditsHealTears | engine/src/search/index.rs:455-470 | an edit makes a torn note trusted again |
| VaultTables.RewritingKeepsTrust | engine/src/search/index.rs:395-414 | changing the rows of a note whose fingerprint is out of date, to anything, is safe |
| VaultTables.IndexingKeepsTrust | engine/src/search/index.rs:372-373 | stamping a note with a fingerprint taken before its content was read is safe |
| VaultTables.DeletingKeepsTrust | engine/src/search/index.rs:426-434 | pruning notes is safe |
| VaultTables.HalfDeletionIsSafeIff | engine/src/search/index.rs:426-434 | a deletion that stops between its statements keeps the invariant exactly when the note is gone or changed or has no rows |
| VaultTables.HalfDeletionIsNeverRepaired | engine/src/search/index.rs:286-308 | else the rows stay missing through any number of passes while the note is unchanged |
| VaultTables.StoringKeepsTrust | engine/src/search/index.rs:492-522 | storing the vectors of content read after its fingerprint makes the note trusted, torn before or not |
| VaultTables.TearingKeepsTheRest | engine/src/search/index.rs:498-515 | a vector write that stops half way leaves the chunk rows and every other note's vectors as trusted as before |
| VaultTables.TearIsSafeIff | engine/src/search/index.rs:498-522 | a stopped write of any rows leaves the note trusted exactly when it is not stamped with its current fingerprint or the rows written are those of its current content |
| VaultTables.TornStoreIsSafeIff | engine/src/search/index.rs:498-522 | so for current content: exactly when the note was not stamped with that fingerprint before, or nothing but the stamp is missing |
| VaultTables.TornStoreOfOldContent | engine/src/search/index.rs:238-279 | between two overlapping passes, which the engine's flag rules out and the index does not, a stopped write of rows read before an edit does harm though every row was written |
| VaultTables.TornStoreIsNeverRepaired | engine/src/search/index.rs:218-223 | a history after which fingerprints agree, vectors are missing and the note is not pending |
| VaultTables.AnyEditKeepsTrustIff | engine/src/search/index.rs:317-327 | an edit with any fingerprint keeps the invariant exactly when the recorded fingerprints differ from it or the stored rows and vectors are right anyway |
| VaultTables.EditIsSeenIff | engine/src/search/index.rs:356-373 | the next pass brings the rows of an edited note up to date exactly when its fingerprint changed or they were right already |
| VaultTables.ReusedFingerprintHidesAnEdit | engine/src/search/index.rs:317-327 | an instance: an edit under the same fingerprint is missed |
| VaultTables.SyncedChunks | engine/src/search/index.rs:354-390 | what a pass makes of the chunk rows of any path, from any tables |
| VaultTables.FileStemIs | engine/src/search/index.rs:673-680 | the title of a note without heading is what stands between the last slash and the last dot of its path |
| VaultTables.NoteRowsAre | engine/src/search/index.rs:395-414 | one row per chunk, with its lines and text, under the first heading or the file name |
| VaultTables.EveryLineIsIndexed | engine/src/search/index.rs:395-414 | over the text of a note: each non-blank line is in exactly one row, at its place |
| VaultTables.SyncedSources | engine/src/search/index.rs:354-390 | what a pass makes of the fingerprints and vectors of any path, from any tables |
| VaultTables.TalliesCount | engine/src/search/index.rs:352-380 | added are the readable notes without a source row, updated those whose fingerprint differs, unchanged those whose fingerprint does not |
| VaultTables.UnreadableNotesKeepTheirRows | engine/src/search/index.rs:366-369 | the rows of a listed unreadable note stay as they are; a pass leaves a listed note with the rows of its content exactly when it is readable |
| VaultTables.StaleRowsAreNotPruned | engine/src/search/index.rs:366-369 | an instance: an indexed note becomes unreadable and keeps its stale rows |
| VaultTables.SyncAllAt | engine/src/search/index.rs:354-380 | a pass treats every note by itself: what happens to one depends on no other |
| VaultTables.TalliesAddUp | engine/src/search/index.rs:352-380 | added, updated, unchanged and skipped add up to the files seen |
| VaultTables.SyncEqualsRebuild | engine/src/search/index.rs:329-392 | with readable notes at rest, fingerprints end as in a rebuild, and chunk rows do exactly when no orphaned rows exist |
| VaultTables.OrphanedRowsSurvive | engine/src/search/index.rs:382-390 | chunk rows without a source row survive any number of passes while their note is away |
| VaultTables.OrphanedRowsExist | engine/src/search/index.rs:372-373 | such rows come about when a first indexing stops before its upsert and the note is removed |
| VaultTables.SecondSyncIsIdle | engine/src/search/index.rs:329-392 | a second pass changes nothing and reports every file unchanged |
| VaultTables.SyncedIsInStep | engine/src/search/index.rs:329-392 | after a pass over readable notes at rest every source row is current |
| VaultTables.EmbeddingSettles | engine/src/search/index.rs:228-280 | embedding a list of notes takes exactly those out of the pending ones |
| VaultTables.EmbeddedAt | engine/src/search/index.rs:224-282 | what embedding a list of notes makes of any path: rows with the vectors of their texts and the stamp, or nothing |
| VaultIndex.SearchIndex.IndexFile | engine/src/search/index.rs:395-414 | the rows of the note become its chunks, or some other rows if it stops; nothing else changes (what the rows hold of the text is `EveryLineIsIndexed`) |
| VaultIndex.SearchIndex.SyncNote | engine/src/search/index.rs:354-380 | one step of a pass, with edits between fingerprint and read: keeps the invariant, and at rest does what the code decides |
| VaultIndex.SearchIndex.SyncVault | engine/src/search/index.rs:329-392 | a pass keeps the invariant whatever is edited and wherever it stops; at rest it ends in the specified tables and counts what it did; it succeeds if no statement fails |
| VaultIndex.SearchIndex.Prune | engine/src/search/index.rs:382-390 | exactly the unseen notes are deleted and counted |
| VaultIndex.SearchIndex.PendingPaths | engine/src/search/index.rs:455-470 | each pending note once |
| VaultIndex.SearchIndex.StoreEmbeddings | engine/src/search/index.rs:492-522 | keeps the invariant wherever it stops: the vectors and the stamp, or the first few vectors and no stamp, and the note is then torn exactly if that does harm |
| VaultIndex.SearchIndex.Meanwhile | engine/src/search/index.rs:138-157 | edits, other index passes and other stores, whole or stopped, keep the invariant |
| VaultIndex.SearchIndex.ReadAndChunk | engine/src/search/index.rs:474-489 | the fingerprint is not newer than the content the rows come from, also if edits fall in between |
| VaultIndex.SearchIndex.EmbedNote | engine/src/search/index.rs:230-279 | one note of an embedding pass keeps the invariant, with edits and other passes at each of its awaits; once stored the note is not torn |
| VaultIndex.SearchIndex.EmbedPending | engine/src/search/index.rs:224-282 | a pass keeps the invariant wherever it stops; at rest it tears at most the note it stopped at and embeds exactly the notes before the first failure and, if the embedder is up, all |
| VaultIndex.SearchIndex.SyncThenEmbed | engine/src/search/index.rs:224-282 | with notes at rest, index pass and embedding pass empty the pending set and report its size; afterwards exactly the notes are in the index, each with its fingerprint twice, its rows, and, unless a stopped store has spoilt them, their vectors |
| VaultIndex.AllSettled | engine/src/search/index.rs:224-282 | embedding every pending note leaves none pending |
| VaultIndex.ProgressReachesEmpty | engine/src/search/index.rs:218-223 | every pass that embeds something shrinks the pending set, so repeated passes reach empty |
| VaultIndex.Run | engine/src/search/index.rs:155-282 | from an empty index, any sequence of passes and edits, any of which may stop anywhere, keeps the invariant; no note is torn if no store stops half way, and at rest only notes at which a pass stopped |
| Preprocess.CollapsingKeepsWords | engine/src/preprocess/mod.rs:82-85 | collapsing keeps every character that is not white space and keeps two of them apart, by one space, exactly where white space did; it happens once and empties only blank text |
| Preprocess.CleaningIsFaithful | engine/src/preprocess/mod.rs:54-71 | only blank segments are dropped; of the others only white space and times change: starts become at least zero and ends at least starts, as real numbers, also for infinities and NaN |
| Preprocess.StableSortIsUnique | engine/src/preprocess/mod.rs:73-78 | there is only one stable sort by start time |
| Preprocess.NormalizeIsStableSort | engine/src/preprocess/mod.rs:50-81 | no NaN reaches the comparison, and the result is the stable sort of the cleaned segments |
| Preprocess.NormalizingLosesNothing | engine/src/preprocess/mod.rs:50-81 | the indices the segments of the result come from: none twice, exactly the blank ones missing, increasing among equal starts |
| Preprocess.StartsIncrease | engine/src/preprocess/mod.rs:73-78 | as numbers the starts never decrease, and none is negative |
| Preprocess.NormalizedAreClean | engine/src/preprocess/mod.rs:44-50 | every segment of the result is trimmed, non-blank and has 0 <= start <= end |
| Preprocess.NormalizeIsIdempotent | engine/src/preprocess/mod.rs:50-81 | normalizing twice is normalizing once |
| Preprocess.Normalize | engine/src/preprocess/mod.rs:50-81 | the filter-and-sort loop keeps every segment that says something, exactly once, cleaned, ordered by start, equal starts in their given order |
| Preprocess.Prepare | engine/src/preprocess/mod.rs:34-42 | normalization then chunking, and the chunks are exactly the normalized transcript |
| WordSets.SimilarIsSymmetric | engine/src/ai/synthesis.rs:215-230 | similarity does not depend on the order of its operands |
| WordSets.SimilarToItself | engine/src/ai/synthesis.rs:215-230 | a text is similar to itself exactly when it has a letter or digit |
| WordSets.WordSetIsRuns | engine/src/ai/extraction.rs:146-152 | the words of a text are the maximal alphanumeric stretches of its lower-cased form with more than two bytes |
| WordSets.NormalFormKeeps | engine/src/ai/synthesis.rs:232-241 | the normal form keeps the letters and digits of the lower-cased text and where anything stands between them |
| WordSets.SimilarIff | engine/src/ai/synthesis.rs:215-230 | texts are similar exactly when both normal forms say something and one contains the other, or the ratio of common to all words is at least 0.34 |
| WordSets.EqIgnoreAsciiCaseIff | engine/src/ai/synthesis.rs:174 | equal up to case means equal but for letters A to Z in the other case |
| Extraction.BestSegment | engine/src/ai/extraction.rs:122-144 | the quote is a verbatim segment of maximal word overlap, the first such; none exactly when nothing overlaps |
| Extraction.Ground | engine/src/ai/extraction.rs:88-118 | quotes the model gave are kept and stamped, else the best segment is quoted, else an empty marker remains |
| Extraction.GroundedIsTraceable | engine/src/ai/extraction.rs:84-118 | after grounding there is evidence and each piece names chunk, start and end |
| Extraction.NoFabricatedQuote | engine/src/ai/extraction.rs:84-118 | all evidence is the model's own with provenance filled in, or a verbatim segment of maximal word overlap with its speaker and times, or the chunk's bare range because nothing overlaps |
| Extraction.QuotesAreKept | engine/src/ai/extraction.rs:88-102 | when a quote says something, all quotes and speakers stay and exactly the missing places become the chunk's |
| Extraction.BestIsQuoted | engine/src/ai/extraction.rs:104-106 | when none does, the first segment that shares the most words is quoted whole, with speaker, times and chunk |
| Extraction.NothingIsQuoted | engine/src/ai/extraction.rs:107-117 | when no segment shares a word, nothing is quoted and the place is the chunk's |
| Extraction.SomeSharesMost | engine/src/ai/extraction.rs:127-136 | where any segment shares a word, one is the first that shares the most |
| Extraction.StampProvenance | engine/src/ai/extraction.rs:68-83 | every item of every kind is grounded and otherwise unchanged |
| Extraction.StampedFindingsAreTraceable | engine/src/ai/extraction.rs:68-83 | so all evidence of a chunk's findings is traceable |
| Extraction.FromChunks | engine/src/ai/findings.rs:57-69 | merging concatenates the findings of the chunks in order |
| Extraction.MergedAre | engine/src/ai/findings.rs:57-69 | kind by kind the merged findings are those of the chunks, one chunk after the other |
| Extraction.MergedIsTraceable | engine/src/ai/findings.rs:57-69 | merging keeps traceability |
| Provenance.MergedIsKnown | engine/src/ai/findings.rs:57-69 | all evidence of the merged findings of any kind is traceable and honest in the chunk whose answer has the finding |
| Provenance.ReconciledIsFounded | engine/src/ai/synthesis.rs:88-132 | so, through extraction, merging and reconciliation, has all evidence of an item that resembles a finding, without repeats and from similar findings only; other items keep the model's |
| Synthesis.Attach | engine/src/ai/synthesis.rs:200-213 | found evidence replaces the item's, without repeats; without any the item keeps its own |
| Synthesis.DeduplicationIsSound | engine/src/ai/synthesis.rs:204-211 | no (quote, chunk) pair twice, every pair still there, nothing new |
| Synthesis.DeduplicatedAre | engine/src/ai/synthesis.rs:204-211 | the first piece of every (quote, chunk) pair is kept, in order |
| Synthesis.MatchedComesFromSimilar | engine/src/ai/synthesis.rs:185-197 | the collected evidence is exactly that of the similar findings |
| Synthesis.GuardField | engine/src/ai/synthesis.rs:160-182 | a value is kept exactly when it is non-blank and a similar finding states it or the transcript contains it |
| Synthesis.ReconcileActions | engine/src/ai/synthesis.rs:119-153 | the loop over action items computes evidence, owner and deadline as specified |
| Synthesis.Backfill | engine/src/ai/synthesis.rs:74-79 | the loop adds each unknown speaker once |
| Synthesis.SpeakerIdsAre | engine/src/domain/transcript.rs:31-43 | everyone who speaks, once, in order of first appearance |
| Synthesis.BackfillCovers | engine/src/ai/synthesis.rs:74-79 | participants stay in front, every speaker is a participant, and only speakers were added |
| Synthesis.SpeakersParticipate | engine/src/ai/synthesis.rs:71-79 | over the transcript: every speaker of a segment is a participant; the given participants come first, then speakers they lack, each once, unnamed, in order of first appearance |
| Synthesis.ItemsAreGrounded | engine/src/ai/synthesis.rs:88-118 | an item similar to some finding has traceable, unrepeated evidence drawn only from similar findings |
| Synthesis.ActionsAreGrounded | engine/src/ai/synthesis.rs:119-132 | the same for action items |
| Synthesis.ReconciledInventsNothing | engine/src/ai/synthesis.rs:134-153 | every owner and deadline left is non-blank and was stated by a similar finding or said in the transcript |
| Synthesis.Reconcile | engine/src/ai/synthesis.rs:71-157 | the whole in-place pass computes the reconciled representation, of which `SpeakersParticipate` and `EveryPartIsReconciled` say what it is |
| Synthesis.EveryPartIsReconciled | engine/src/ai/synthesis.rs:71-157 | kind by kind: texts stay, evidence becomes that of all similar findings of that kind without repetitions, an owner or deadline stays exactly when somebody said it, and a missing one is taken from the first similar finding that has one |
| Synthesis.TranscriptGrows | engine/src/ai/synthesis.rs:81-86 | the text in which values are looked up is the lower-cased texts of all segments, joined by spaces |
| Synthesis.FieldOnRepeat | engine/src/ai/synthesis.rs:134-153 | a field changes on a second pass exactly when a finding's supported value replaces a dropped one, and never on a third |
| Synthesis.ReconcileOnRepeat | engine/src/ai/synthesis.rs:71-157 | reconciling twice is reconciling once exactly when no action field is so replaced; three times is always twice |
| Synthesis.OnePassIsNotEnough | engine/src/ai/synthesis.rs:134-146 | an example in which the second pass fills in an owner |
| Artifacts.ReconcilingKeepsValidity | engine/src/ai/validation.rs:11-49 | reconciliation neither spoils a representation for validation nor saves it |
| Artifacts.ValidMeansSaid | engine/src/ai/validation.rs:11-49 | valid means that the summary and the text of every item of every kind say something |
| Artifacts.AcceptedInventsNothing | engine/src/pipeline/orchestrator.rs:384-442 | a stored representation of a non-empty transcript rests on chunks of that transcript: the evidence of its items of every kind is founded in findings of these chunks, and no owner or deadline in it is invented |
| Artifacts.WritingStatus | engine/src/domain/processing.rs:25-37 | a status may be written when what it promises is stored; then the store invariant stays |
| Artifacts.WritingIr | engine/src/storage/repositories/mod.rs:33 | storing an accepted representation of the stored transcript keeps the store invariant |
| Artifacts.WritingTranscript | engine/src/storage/repositories/mod.rs:26-30 | storing the transcript of a known meeting without one keeps the store invariant and everything captured |
| Jobs.JobStore.Upsert | engine/src/pipeline/job_store.rs:68-97 | one row is replaced in its place or added at the end, or the statement failed |
| Jobs.JobStore.ListUnfinished | engine/src/pipeline/job_store.rs:99-129 | every queued or running row, each once, in order of creation |
| Jobs.UnfinishedInOrder | engine/src/pipeline/job_store.rs:99-129 | rows created earlier are listed earlier |
| Jobs.RankIsPosition | engine/src/pipeline/jobs.rs:77-88 | the ranks number the stages in the order of the pipeline |
| Jobs.JobRegistry.Create | engine/src/pipeline/jobs.rs:162-176 | a new queued job under an unused id, not cancelled, mirrored |
| Jobs.JobRegistry.Reinsert | engine/src/pipeline/jobs.rs:180-192 | the job is registered again under a fresh cancel flag, mirrored |
| Jobs.JobRegistry.RequestCancel | engine/src/pipeline/jobs.rs:203-212 | the flag is set exactly when the job is known |
| Jobs.JobRegistry.Update | engine/src/pipeline/jobs.rs:214-228 | one entry changes, its row follows (or the write failed), unknown jobs are ignored |
| Databases.Analyzer.ExtractChunk | engine/src/ai/mod.rs:84-95 | whatever the model answers, what comes back is grounded in the chunk; a failure is an AI failure |
| Databases.Analyzer.Synthesize | engine/src/ai/mod.rs:97-110 | whatever the model answers, what comes back is reconciled with findings and transcript; a failure is an AI failure |
| Databases.Database.Others | engine/src/pipeline/orchestrator.rs:201-343 | whatever other runs write meanwhile keeps the store invariant and everything captured |
| Databases.Database.SaveTranscript | engine/src/pipeline/orchestrator.rs:231-233 | on success the transcript is stored; in any case the invariant holds, nothing captured is lost, and this run wrote nothing else |
| Databases.Database.PersistStatus | engine/src/pipeline/orchestrator.rs:195-199 | a status write never fails a run and keeps the invariant |
| Events.NoTerminalInside | engine/src/pipeline/orchestrator.rs:201-465 | no step of a run is a terminal event |
| Events.FullRunIs | engine/src/pipeline/orchestrator.rs:201-274 | what a run does before its enrichment, step by step, for audio, a given transcript, and a stored one |
| Events.EnrichmentIs | engine/src/pipeline/orchestrator.rs:300-460 | and the steps of the enrichment of n chunks, each at its place |
| Orchestration.Orchestrator.CheckCancel | engine/src/pipeline/orchestrator.rs:467-473 | an error exactly when a cancellation was requested by now |
| Orchestration.Orchestrator.MediaAndAsr | engine/src/pipeline/orchestrator.rs:346-381 | its two stages with a check for cancellation between them, in order as far as it gets; it fails as cancelled, media or ASR failure |
| Orchestration.Orchestrator.ExtractAll | engine/src/pipeline/orchestrator.rs:409-425 | one grounded finding per chunk, a check before each, and progress from 1 to n as far as it gets |
| Orchestration.Orchestrator.ValidateStage | engine/src/pipeline/orchestrator.rs:444-460 | passes exactly the valid representations |
| Orchestration.Orchestrator.Analyze | engine/src/pipeline/orchestrator.rs:384-442 | on success the representation is accepted for the transcript; the empty transcript needs no model |
| Orchestration.Orchestrator.SaveArtifacts | engine/src/pipeline/orchestrator.rs:336-341 | exactly rendering and participants are written, and no meeting added |
| Orchestration.Orchestrator.Enrich | engine/src/pipeline/orchestrator.rs:300-343 | on success all artifacts are stored; a run's own enrichment never writes about another meeting, nor a transcript or status, and adds no meeting, whatever others do |
| Orchestration.Orchestrator.Capture | engine/src/pipeline/orchestrator.rs:217-238 | on success exactly the given or heard transcript is stored, before any analysis |
| Orchestration.Orchestrator.Run | engine/src/pipeline/orchestrator.rs:201-252 | on success a new meeting with all artifacts; the rendering it wrote is that of the representation it wrote; it writes about this meeting only; whenever enrichment was announced or analysis failed, the source is stored and the status it left says Processing |
| Orchestration.Orchestrator.Rerun | engine/src/pipeline/orchestrator.rs:255-296 | never adds a meeting or writes a transcript, whatever others do; an unknown meeting is a storage failure; once enrichment is announced the status it left says Processing; on success what it wrote is in step |
| Orchestration.Orchestrator.Finalize | engine/src/pipeline/orchestrator.rs:136-191 | the job is Completed exactly on success, Cancelled exactly when cancelled, else Failed; the status, if it can be written, is Ready exactly on success, Failed exactly on a storage failure and Deferred exactly when cancelled or on a media, ASR or AI failure; then the one terminal event |
| Orchestration.Orchestrator.Process | engine/src/pipeline/orchestrator.rs:106-115 | a whole run among others, with failures anywhere: store invariant, nothing captured lost, the source stored once enrichment is announced and whenever analysis failed, the steps of a full run as far as it gets, one truthful terminal event; all it changes about meetings others leave alone is one new meeting, whose rendering is in step and whose status is Ready, Deferred or Failed as for Finalize, whatever failed, unless the status write did; the job likewise; nobody else is on record when there are no other runs; a job cancelled before it starts never completes, an undisturbed one does |
| Orchestration.Orchestrator.Reprocess | engine/src/pipeline/orchestrator.rs:122-131 | the same for the retry path, with its own steps, after which every new meeting is one that others added meanwhile |
| Orchestration.RunAmongOthers | engine/src/pipeline/orchestrator.rs:201-343 | what a run wrote holds of the store for every meeting others did not write about, and what nobody wrote about is as it was |
| Orchestration.TerminalIsLastAndTrue | engine/src/pipeline/orchestrator.rs:136-191 | a terminal event is the last one, there is one unless the process ended, and it is JobCompleted exactly when the run succeeded |
| Orchestration.ErrorNamesTheStep | engine/src/pipeline/orchestrator.rs:201-473 | a failed run did the first steps of a full run and stopped at a check exactly when cancelled, at media work, transcription, a model answer or validation, or a read or write of the store exactly when it failed so |
| Orchestration.StagesMoveForward | engine/src/pipeline/orchestrator.rs:463-465 | the stages a job enters in a run are ever later ones |
| Orchestration.ProgressCountsUp | engine/src/pipeline/orchestrator.rs:409-428 | reports count 1 to n in steps of one with a check before each, and extraction completes right after the n-th |
| Orchestration.OutcomeIsAllowed | engine/src/pipeline/orchestrator.rs:136-191 | the status written after a run is one the store may show |
| Orchestration.MessagesDiffer | engine/src/pipeline/orchestrator.rs:172-176 | different kinds of failure leave different messages in the job |
| Recovery.Engine.RecoverInterrupted | engine/src/lib.rs:282-308 | exactly the counted interrupted captures become Deferred and nothing else changes, also if the process ends meanwhile; if nothing fails every Processing status becomes Deferred and every other stays |
| Recovery.Engine.RecoverJob | engine/src/lib.rs:336-373 | one row is resumed exactly when it processes a meeting, has fewer than three attempts and its transcript was found; then it is queued for reprocessing with one attempt more, registered and spawned; else it is failed with its attempts as they were |
| Recovery.Engine.RecoverJobs | engine/src/lib.rs:316-378 | the pass does so for every unfinished row and returns how many it resumed, or is cut off after some; if nothing fails and there are no other runs, each row gets what it is due by its kind, its attempts and the stored transcripts |
| Recovery.RowsAreRecovered | engine/src/lib.rs:336-373 | a row left queued or running is resumed exactly when it is of kind Process or Reprocess, has fewer than three attempts and a meeting with a stored transcript; the other unfinished ones are failed, finished ones stay |
| Recovery.NoOrphansAfterRecovery | engine/src/lib.rs:310-315 | then every unfinished row is a queued Reprocess job within budget, registered, with a task and a transcript; finished rows are as they were |
| Recovery.PassKeepsBudget | engine/src/lib.rs:317 | attempts count resumptions and never exceed three, also if the pass is cut off |
| Recovery.QuietMeansFinished | engine/src/lib.rs:310-315 | when no task is left and none was cut off, every job has ended |
| Recovery.Engine.RunTask | engine/src/lib.rs:222-227 | a spawned task ends its job or is cut off, and touches no other job |
| Recovery.Engine.MaybeSpawnEmbedding | engine/src/lib.rs:485-492 | embedding passes never overlap |
| Recovery.Engine.BeginPass | engine/src/lib.rs:497-504 | a pass without work ends at once; else it gets a fresh running embedding job |
| Recovery.Engine.EndPass | engine/src/lib.rs:505-517 | its job is Completed or Failed, as the pass went, and the next pass may start |
| Recovery.Engine.Drain | engine/src/lib.rs:202-248 | a life in which every task gets its turn and none is cut off leaves every job ended |
| Recovery.Engine.Live | engine/src/lib.rs:202-248 | any sequence of requests and tasks keeps invariant and captures, revives nothing and changes no attempts |
| Recovery.Lives | engine/src/lib.rs:279-378 | over any number of process lives: no job is resumed by more than three recovery passes, its attempts count these, finished jobs stay finished, captures stay |
| Framing.FramingIsIncremental | apps/desktop/lib/ipc/engine_client.dart:253-262 | framing a prefix and going on from its remainder is framing the whole |
| Framing.FirstLine | apps/desktop/lib/ipc/engine_client.dart:253-262 | a text hands on its first line, trimmed, unless nothing is left of it, and then what the rest hands on |
| Framing.NoNewline | apps/desktop/lib/ipc/engine_client.dart:253-262 | a text without newline hands on nothing and is kept whole |
| Framing.ChunkingIsInvisible | apps/desktop/lib/ipc/engine_client.dart:253-262 | every way of cutting decoded text into chunks hands on the same lines and leaves the same remainder |
| Utf8.DecodeAfterEncode | apps/desktop/lib/ipc/engine_client.dart:254 | decoding by section 3 of RFC 3629, without the treatment of marks, inverts the encoding of every text, which is well-formed |
| Utf8.ConvertAfterEncode | apps/desktop/lib/ipc/engine_client.dart:254 | the client's conversion gives a text back but for a byte order mark at its beginning |
| Utf8.ConvertingByChunks | apps/desktop/lib/ipc/engine_client.dart:254 | converting well-formed bytes chunk by chunk gives the text of the whole exactly when no chunk begins with a continuation byte and none, behind other bytes, with a byte order mark; a cut inside a character adds replacements |
| Framing.ChunksShowIff | apps/desktop/lib/ipc/engine_client.dart:253-262 | with a trim that strips marks and keeps replacements, the lines and the remainder are those of the whole exactly when no chunk begins with a continuation byte and every discarded mark would have been stripped from its line |
| Framing.HarmlessCuts | apps/desktop/lib/ipc/engine_client.dart:253-262 | with any trim they are, when no chunk begins with a continuation byte or, behind other bytes, with a mark |
| Framing.SplitCharacterIsLost | apps/desktop/lib/ipc/engine_client.dart:254 | an instance: the two bytes of one character in two chunks come out as two replacement characters |
| Framing.MarkIsLost | apps/desktop/lib/ipc/engine_client.dart:254 | an instance: a mark in the middle of a text that begins a chunk is gone |
| EngineClient.NewIdIsFresh | apps/desktop/lib/ipc/engine_client.dart:320 | a new request id was never issued before |
| EngineClient.Client.HandleLine | apps/desktop/lib/ipc/engine_client.dart:264-307 | a response settles its request if it is pending; everything else settles nothing |
| EngineClient.Client.OnData | apps/desktop/lib/ipc/engine_client.dart:253-262 | converts the bytes, hands on exactly the complete lines and keeps the rest; nothing settled is unsettled |
| EngineClient.Client.Receive | apps/desktop/lib/ipc/engine_client.dart:253-262 | any sequence of byte chunks hands on the lines of the converted chunks, and those of the whole text if no chunk begins with a continuation byte or, behind other bytes, with a mark |
| EngineClient.Client.Send | apps/desktop/lib/ipc/engine_client.dart:314-347 | a request gets a fresh id and becomes pending, or fails without trace |
| EngineClient.Client.Timeout | apps/desktop/lib/ipc/engine_client.dart:337-345 | a pending request is settled as timed out; a settled one is left alone |
| EngineClient.Client.Start | apps/desktop/lib/ipc/engine_client.dart:123-128 | a no-op while running; else a first connection attempt |
| EngineClient.Client.Connect | apps/desktop/lib/ipc/engine_client.dart:130-162 | a new connection starts with an empty buffer, a failed one leaves nothing pending; nothing happens when stopped or already connected |
| EngineClient.Client.Handshake | apps/desktop/lib/ipc/engine_client.dart:164-191 | an incompatible engine ends the connection for good and settles nothing; any other answer changes nothing |
| EngineClient.Client.FailPending | apps/desktop/lib/ipc/engine_client.dart:236-243 | every pending request is settled, once, as disconnected |
| EngineClient.Client.OnDisconnected | apps/desktop/lib/ipc/engine_client.dart:193-213 | afterwards every request ever issued is settled, and the backoff doubled up to its cap |
| Answers.CleanAnswer | engine/src/search/qa.rs:111-123 | the loop terminates and computes the text without thoughts |
| Answers.Stripped | engine/src/search/qa.rs:113-121 | no opening tag is left, and text without one is untouched |
| Answers.CleaningIsFinal | engine/src/search/qa.rs:111-123 | cleaning twice is cleaning once |
| Answers.PlainAnswersAreKept | engine/src/search/qa.rs:111-123 | an answer without a tag is only trimmed |
| Answers.BlockIsCutOut | engine/src/search/qa.rs:114-117 | whatever is thought between the tags short of the closing one, the answer is cleaned as if the block had never been there |
| Answers.UnclosedBlockIsDropped | engine/src/search/qa.rs:118-120 | a thought that is never closed takes the rest of the answer with it and nothing before it |
| Answers.FilesReadAreCited | engine/src/search/qa.rs:32-41 | the files an answer lists are exactly those of its passages, each once |
| Answers.CitationPointsAtPassage | engine/src/search/qa.rs:32-40 | a citation has the file and lines of its passage and the beginning of its text |
| Answers.UniquePaths | engine/src/search/qa.rs:154-163 | every cited path once, in order of first citation |

## Left out

- VaultIndex.SearchIndex.DeleteSource: its three statements are taken as one step; they are not in a transaction (engine/src/search/index.rs:426-434). When stopping between them does harm is `HalfDeletionIsSafeIff`; runs go on from whole deletions only.
- VaultIndex.Embedder.Embed: the model answers each text with a vector that depends only on that text.
- Jobs.JobStore.ListUnfinished: unreadable enum tokens, which the source reads as defaults, and rows created at the same instant are not modelled.
- Databases.Database.Others: other runs change meetings, transcripts, representations, renderings and statuses; a run reads and writes only its own job row, so the rows of other jobs do not move meanwhile. Other runs save a transcript only for meetings of their own, which random meeting ids ensure.
- Recovery.Engine.RecoverJobs: resumed tasks start after the pass, not during it; a task touches no other job's row (`RunTask`).
- Recovery.Lives: assumes that writes to the job table succeed; without that, only what each pass and run promises by itself holds.
- Orchestration.Orchestrator.Process: that the stored rendering is that of the stored representation is claimed unless other runs wrote about the same meeting, when it can be false; a cancellation requested during a run counts at the next check, and one requested after the check that follows synthesis no longer counts, as in the source.
- Stages only move forward within one run: a resumed job keeps its old stage until its run enters the first one.
- A Deferred status does not imply a stored transcript: a run may be cancelled or fail before the transcript is saved.
- Vectors may outlive the source row of a note pruned while it was being embedded; the vector invariant speaks only of notes with matching fingerprints.
- Meeting and job ids are numbers that are never handed out twice, in place of random UUIDs.
- Error texts, time stamps and the retry data of statuses; job errors carry the kind of error only.
- The text of extraction and synthesis prompts, JSON decoding with its one retry, the result cache, and Markdown rendering: models may answer anything, and rendering is an arbitrary function.
- Decisions, topics, questions and risks share one type whose `note` stands for context or severity; confidence and action status are not modelled, as nothing modelled reads them.
- Unicode: which characters are alphanumeric and how text is lower-cased are parameters; white space is the Unicode white space property; there is no normalization.
- Floating point: scores are real numbers, times are reals with infinities and NaN (signed zero is not distinguished), vector components are 32-bit words, the similarity threshold is the rational 34/100.
- Full-text and vector search themselves (SQLite FTS5, bm25, cosine similarity, query sanitizing): fusion takes any two ranked lists.
- The prompt, the fallback text and the bullet previews of an answer: constant templates.
- The client's JSON decoding, white space trimming and timers: functions and events from outside; disposing of the client.
- Degraded start without a job table (nothing is recovered then), configuration, IPC, media tools, speech recognition and the user interface.
