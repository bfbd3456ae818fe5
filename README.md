# Vector vault keeper, modelled in Dafny

The vault is a single-page app that keeps vector databases in memory. Each
database has a name, a description, a `dimensions` count and an ordered
list of records. A record is some content, JSON metadata and a vector. This
project models the app's logic:

- **The document chunker** (`chunkDocument`, module `DocumentProcessor`).
  It has a sentence mode, which greedily packs sentences into a buffer and
  carries the buffer's tail over into the next chunk. It also has a
  fixed-window mode, which slides a window of `chunkSize` characters back
  by `chunkOverlap` each step. Both modes then fill in `totalChunks`. The
  routine is an imperative method over its own loop state. It is proved
  equal to a functional description (`ChunkResult`), and the chunk
  properties are lemmas about that description.
- **The page's store and search** (module `Store`). The update lambdas
  (`map`, `filter`, spread) are pure functions over sequences. The
  handlers are methods of the `VectorStore` class, which replace its
  fields. The search scores each record, filters, and sorts stably by
  descending score.
- **The record dialog's submit handler** (module `RecordDialog`). This is
  the only place where a vector's length is checked against `dimensions`.
- **The document dialog** (module `UploadDialog`). It covers:
  - the default name taken from a file name;
  - the label shown for a progress value;
  - the guard in front of the chunker;
  - the embedding of every chunk;
  - the assembly of chunks and embeddings into records;
  - the field updates of its two handlers.

The JavaScript built-ins the logic depends on are modelled exactly in
`JsText`:
- `trim`, over ECMAScript whitespace;
- `slice`, including negative and clamped indices, so `slice(-0)` is `slice(0)`;
- `split` on one character;
- ASCII `toLowerCase`;
- `includes`;
- the decimal rendering of a chunk index.

Two behaviours of the chunker as written are reproduced, not idealised:

- **Fixed-window mode can loop forever.** The `while` loop ends only on
  empty text, or when `chunkOverlap <= 0` and `chunkSize - chunkOverlap > 0`
  (`WindowLoopEnds`). For every other configuration the model's
  `ChunkDocument` returns `Hangs`. `WindowLoopNeverEnds` proves that the
  loop condition then holds after any number of iterations. The dialog's
  default overlap of 50 therefore hangs on any non-blank text once
  "preserve sentences" is unticked (`DefaultOverlapHangs`). Nothing
  rejects these configurations; the model follows the code.
- **Sentence-mode offsets are not positions in the text.**
  `startPosition` and `endPosition` come from buffer lengths: each start
  is the previous end minus `chunkOverlap`. They are not offsets into
  the text.
  With `chunkOverlap == 0`, the whole buffer is carried over, so every
  chunk repeats the first sentence (`ZeroOverlapRepeatsFirstSentence`).

Inputs from outside the logic are parameters:
- the similarity score;
- `JSON.parse` and `JSON.stringify`;
- `parseFloat`;
- the embedding of a text, as a function returning `None` on failure;
- the ids `Date.now()` would give;
- the values `Math.random()` would draw;
- the result of extracting a file's text.

## Model

| member | source | states |
|---|---|---|
| JsText.Trim | src/utils/documentProcessor.ts:23 | `trim` removes a whitespace-only lead and trail and keeps the contiguous middle, which neither starts nor ends with whitespace |
| JsText.TrimEmptyBlank | src/components/AddRecordModal.tsx:47 | `s.trim()` is the empty, falsy string exactly when every character of `s` is whitespace |
| JsText.TrimKeepsPrefix | src/utils/documentProcessor.ts:48 | trimming a buffer keeps a prefix that starts and ends with non-whitespace |
| JsText.TrimKeepsLast | src/utils/documentProcessor.ts:74 | trimming keeps a last character that is not whitespace |
| JsText.RelIndex | src/utils/documentProcessor.ts:61 | how `slice` reads an index: a negative one counts from the end, and the result is clamped to `0..length` |
| JsText.Slice | src/utils/documentProcessor.ts:93 | `slice(start, end)` is the substring when both are in range; otherwise its length is the clamped difference of the indices |
| JsText.SliceTail | src/utils/documentProcessor.ts:61 | `slice(-k)` gives the last `k` characters for `0 < k < length`, the whole string for `k == 0` or `k >= length`, and drops the first `-k` characters for negative `k` |
| JsText.SliceFrom | src/utils/documentProcessor.ts:61 | the definition of `slice(start)` as `slice(start, length)`. `SliceTail` states what it gives for `-chunkOverlap` |
| JsText.SplitOn | src/components/AddRecordModal.tsx:61 | `split(",")` gives one more piece than there are commas, and no piece holds a comma |
| JsText.JoinSplit | src/components/AddRecordModal.tsx:61 | splitting loses nothing: joining the pieces with the separator gives the input back |
| JsText.Lower | src/pages/Index.tsx:207 | `toLowerCase` keeps the length and lowers each ASCII capital, leaving every other character alone |
| JsText.LowerSlice | src/pages/Index.tsx:207 | lowering a slice equals slicing the lowered string |
| JsText.ContainsLower | src/pages/Index.tsx:207 | a verbatim occurrence of the query is still an occurrence after both sides are lowered |
| JsText.Contains | src/pages/Index.tsx:207 | the definition of `includes`: the needle occurs at some index of the haystack. `ContainsLower` is its partner |
| JsText.NatToStringDigits | src/utils/documentProcessor.ts:47 | the rendered chunk index is all digits, with no leading zero |
| JsText.NatToStringInjective | src/utils/documentProcessor.ts:47 | different indices render differently |
| JsText.NatToString | src/utils/documentProcessor.ts:47 | the decimal rendering has at least one digit, and at least two from 10 on |
| DocumentProcessor.SplitOnTerminators | src/utils/documentProcessor.ts:23 | `split(/[.!?]+/)` gives at least one piece, no piece holds a terminator, and the first piece is empty exactly when the text starts with a terminator. `SplitRebuildsText` and `SplitUnique` pin the pieces down completely |
| DocumentProcessor.FlattenSplit | src/utils/documentProcessor.ts:23 | the pieces concatenate to the text with its terminators removed: the split drops terminators and nothing else |
| DocumentProcessor.TerminatorRuns | src/utils/documentProcessor.ts:23 | the runs the split cuts at: one fewer than the pieces, and at least one when the text starts with a terminator |
| DocumentProcessor.SplitRebuildsText | src/utils/documentProcessor.ts:23 | every text is `pieces[0] + runs[0] + pieces[1] + … + pieces[last]` for its split and its runs: each run is one or more terminators, no piece holds one, and every piece between two runs is non-empty |
| DocumentProcessor.SplitUnique | src/utils/documentProcessor.ts:23 | any pieces and runs that rebuild a text in that way are its split and its runs, so the split cuts exactly at the maximal runs of `.`, `!` and `?` |
| DocumentProcessor.SplitWithoutTerminators | src/utils/documentProcessor.ts:23 | a text without a terminator splits into itself alone, with no run |
| DocumentProcessor.Sentences | src/utils/documentProcessor.ts:23 | the definition of the `filter` and `map` step: each non-blank piece, trimmed, with a dot after it, in piece order. `SentencesShape`, `SentencesConcat` and `SentencesEmptyIff` state its properties |
| DocumentProcessor.SentencesConcat | src/utils/documentProcessor.ts:23 | the filter and map work piece by piece: the sentences of `a + b` are those of `a` followed by those of `b` |
| DocumentProcessor.SentenceOfShape | src/utils/documentProcessor.ts:23 | a terminator-free piece yields no sentence or one well-formed sentence |
| DocumentProcessor.SentencesShape | src/utils/documentProcessor.ts:23 | the filter-and-map step turns terminator-free pieces into sentences: non-empty trimmed terminator-free text followed by `.` |
| DocumentProcessor.SplitIntoSentences | src/utils/documentProcessor.ts:22-24 | every returned sentence ends in `.`, has non-empty text before the dot that neither starts nor ends with whitespace, and holds no `.`, `!` or `?` before the dot. `SentencesOfCut` says which sentences they are |
| DocumentProcessor.SentencesOfCut | src/utils/documentProcessor.ts:22-24 | for any cut of the text into terminator-free pieces at its maximal terminator runs, the sentences are exactly the trimmed non-blank pieces in order, each with a dot |
| DocumentProcessor.SentencesEmptyIff | src/utils/documentProcessor.ts:23 | the filter keeps no piece exactly when every piece is whitespace only |
| DocumentProcessor.NoSentencesIff | src/utils/documentProcessor.ts:22-24 | a text yields no sentence exactly when it holds nothing but whitespace and `.`, `!`, `?` |
| DocumentProcessor.ChunkId | src/utils/documentProcessor.ts:47 | an id is `documentId_chunk_` followed by at least one decimal digit and nothing else |
| DocumentProcessor.MakeChunk | src/utils/documentProcessor.ts:46-57 | the definition of a chunk literal: the id from the index, the given content and offsets, the document's id and name, and `totalChunks` 0. The chunk lemmas below state its properties |
| DocumentProcessor.ChunkIdInjective | src/utils/documentProcessor.ts:47 | two chunks of one document with different indices never share an id |
| DocumentProcessor.PackSentence | src/utils/documentProcessor.ts:41-67 | one iteration pushes no chunk or one, and the index advances exactly by the number of chunks pushed |
| DocumentProcessor.PackAll | src/utils/documentProcessor.ts:40-68 | when the loop ends, the index equals the number of chunks pushed, which is at most the number of sentences |
| DocumentProcessor.Flush | src/utils/documentProcessor.ts:70-85 | the final step keeps the pushed chunks as a prefix and adds at most one, whose content is the trimmed, non-empty buffer and whose index is the loop's index |
| DocumentProcessor.PackSentenceSteps | src/utils/documentProcessor.ts:42-67 | an iteration closes a chunk exactly when the buffer is non-empty and buffer, space and sentence exceed `chunkSize`. A closed chunk holds the trimmed buffer, the new buffer is the buffer's `slice(-chunkOverlap)` plus space plus sentence, and the next start is start plus untrimmed buffer length minus overlap. Otherwise the sentence is appended after a space, or becomes the buffer when that is empty. Earlier chunks are never changed |
| DocumentProcessor.PackCloseResult | src/utils/documentProcessor.ts:44-64 | the whole loop state after a closing iteration: the chunk spans `startPosition` to `startPosition + buffer length`, with the index advanced and the tail-plus-sentence buffer |
| DocumentProcessor.PackCloseKeeps | src/utils/documentProcessor.ts:44-64 | closing a chunk keeps the loop invariant: consecutive numbering, offsets chained by the overlap, well-shaped chunks, and a buffer ending in `.` |
| DocumentProcessor.PackAppendKeeps | src/utils/documentProcessor.ts:65-67 | appending a sentence to the buffer keeps the loop invariant |
| DocumentProcessor.PackSentenceKeeps | src/utils/documentProcessor.ts:40-68 | every iteration of the sentence loop keeps the loop invariant |
| DocumentProcessor.PackFirstInvariant | src/utils/documentProcessor.ts:40-68 | after any number of sentences, the loop state satisfies the invariant, with fewer chunks than sentences read |
| DocumentProcessor.PackAllInvariant | src/utils/documentProcessor.ts:40-68 | the invariant holds when the loop ends |
| DocumentProcessor.FlushCount | src/utils/documentProcessor.ts:70-85 | after the final flush there is no chunk exactly when there was no sentence, and never more chunks than sentences |
| DocumentProcessor.FlushFacts | src/utils/documentProcessor.ts:70-85 | the flushed last chunk keeps numbering, chaining and shape |
| DocumentProcessor.SentenceChunkCount | src/utils/documentProcessor.ts:34-85 | sentence mode gives no chunk exactly when there is no sentence, and otherwise between one and the number of sentences |
| DocumentProcessor.SentenceChunksFacts | src/utils/documentProcessor.ts:34-85 | sentence-mode chunk `k` has index `k`, id `documentId_chunk_k` and the document's id and name. The first starts at 0, and each next start is the previous end minus `chunkOverlap`. Every content is non-empty, starts with non-whitespace, ends in `.` and is no longer than its offset range |
| DocumentProcessor.ZeroOverlapRepeatsFirstSentence | src/utils/documentProcessor.ts:61-62 | with `chunkOverlap == 0`, `slice(-0)` keeps the whole buffer, so every chunk begins with the document's first sentence |
| DocumentProcessor.ZeroOverlapStep | src/utils/documentProcessor.ts:61-66 | with no overlap, one iteration keeps the buffer and every chunk starting with the first sentence |
| DocumentProcessor.Windows | src/utils/documentProcessor.ts:91-112 | the windows from a position: none exactly when the position is at or past the end of the text |
| DocumentProcessor.WindowsUnfold | src/utils/documentProcessor.ts:91-111 | one window iteration emits the window at the position, `text.slice(position, min(position + chunkSize, length))` with those offsets, and continues at that end minus the overlap |
| DocumentProcessor.WindowsIndexed | src/utils/documentProcessor.ts:95-106 | the windows from a position are numbered from the current index, with matching ids and the document's id and name |
| DocumentProcessor.Contents | src/components/DocumentUploadModal.tsx:87 | one content per chunk, in chunk order |
| DocumentProcessor.WindowsStep | src/utils/documentProcessor.ts:91-110 | with no overlap and a positive size, the window at the position ends strictly after it and within the text, and the next window starts where it ends |
| DocumentProcessor.WindowAtFacts | src/utils/documentProcessor.ts:92-104 | a window inside the text is `text[position..end]` with those offsets. It holds at most `chunkSize` characters, and exactly `chunkSize` unless it ends the text |
| DocumentProcessor.WindowsCover | src/utils/documentProcessor.ts:91-112 | with no overlap and a positive size, the window contents concatenate back to the rest of the text |
| DocumentProcessor.WindowsEnds | src/utils/documentProcessor.ts:91-112 | there is a window exactly when some text is left; the first starts at the position and the last ends the text |
| DocumentProcessor.WindowsTile | src/utils/documentProcessor.ts:91-112 | windows are consecutive and each is `text[start..end]`. Each has at most `chunkSize` characters, and all but the last have exactly `chunkSize` |
| DocumentProcessor.WindowsCount | src/utils/documentProcessor.ts:91-112 | the number of windows is the fewest that can hold the text at `chunkSize` characters each |
| DocumentProcessor.WindowsCoverText | src/utils/documentProcessor.ts:88-112 | with no overlap and a positive size, the windows tile the whole text. Empty text gives no chunk; otherwise the first starts at 0 and the last ends at the text length |
| DocumentProcessor.WindowLoopNeverEnds | src/utils/documentProcessor.ts:91-110 | outside `WindowLoopEnds`, on non-empty text, `position < text.length` still holds after any number of iterations |
| DocumentProcessor.LastWindowRepeats | src/utils/documentProcessor.ts:92-110 | with `0 < chunkOverlap <= chunkSize`, the window ending the text is followed by the same window again: a fixed point of the position update |
| DocumentProcessor.ReachesLastWindow | src/utils/documentProcessor.ts:91-110 | with `0 < chunkOverlap < chunkSize`, the loop does reach that fixed point from any position inside the text |
| DocumentProcessor.WithTotal | src/utils/documentProcessor.ts:116-118 | the backfill keeps every id, content and metadata field, except that `totalChunks` becomes the number of chunks |
| DocumentProcessor.WithTotalNumbered | src/utils/documentProcessor.ts:116-118 | consecutively numbered chunks become fully numbered, with the right `totalChunks` on each |
| DocumentProcessor.ChunkResult | src/utils/documentProcessor.ts:26-121 | the chunker's description hangs exactly in fixed-window mode outside `WindowLoopEnds` |
| DocumentProcessor.ChunkResultNumbered | src/utils/documentProcessor.ts:26-121 | in every returned result, chunk `i` has index `i`, id `documentId_chunk_i`, the document's id and name, and `totalChunks` equal to the result's length |
| DocumentProcessor.PackStep | src/utils/documentProcessor.ts:41-67 | the body of the sentence loop computes one step of the packing description |
| DocumentProcessor.PackSentences | src/utils/documentProcessor.ts:36-85 | the `for` loop and the final flush compute the packing of all sentences, with the last non-blank buffer pushed |
| DocumentProcessor.CutWindows | src/utils/documentProcessor.ts:88-112 | where the `while` loop ends, it computes exactly the windows from position 0 |
| DocumentProcessor.SetTotals | src/utils/documentProcessor.ts:116-118 | the in-place `forEach` computes the backfill |
| DocumentProcessor.ChunkDocument | src/utils/documentProcessor.ts:26-121 | `chunkDocument` computes the chunker's description. It hangs exactly in fixed-window mode outside `WindowLoopEnds`, and everything it returns is fully numbered |
| Store.Without | src/pages/Index.tsx:82 | the filter keeps exactly the elements whose id differs, and none with the id |
| Store.WithoutConcat | src/pages/Index.tsx:82 | the filter distributes over concatenation, so kept elements keep their order |
| Store.WithoutAbsent | src/pages/Index.tsx:177 | when no element has the id, nothing is removed |
| Store.AppendToSelected | src/pages/Index.tsx:112-116 | only databases with the selected id change. Their other fields stay, their old records stay as a prefix, and the added records follow in order |
| Store.ReplaceRecords | src/pages/Index.tsx:158-160 | each record with the edited id becomes the updated record; every other record stays |
| Store.UpdateInSelected | src/pages/Index.tsx:154-163 | every database keeps its record count; only selected databases change, and only by replacing the edited id's records |
| Store.DeleteInSelected | src/pages/Index.tsx:175-179 | only selected databases change, by removing exactly the records with that id |
| Store.FindDatabase | src/pages/Index.tsx:99 | `find` gives nothing exactly when no database has the id, and otherwise the first database with it |
| Store.AppendKeepsFit | src/pages/Index.tsx:102-116 | when every vector has its database's length and so do the added ones, that still holds after appending |
| Store.UpdateKeepsFit | src/pages/Index.tsx:144-163 | the same for an update with a vector of the right length |
| Store.DeleteKeepsFit | src/pages/Index.tsx:172-179 | deleting records never breaks the length rule |
| Store.AppendCanBreakFit | src/pages/Index.tsx:112-116 | the store itself never checks lengths: appending a wrong-length vector is accepted and breaks the rule |
| Store.Scored | src/pages/Index.tsx:200-204 | one scored entry per record, in order, carrying that record and its score |
| Store.Passes | src/pages/Index.tsx:205-209 | the definition of the filter's test: a score above 0.1, or the lowered query inside the lowered content or the lowered serialised metadata. `Passing` and `ExactQueryFound` state what it keeps |
| Store.Passing | src/pages/Index.tsx:205-209 | the filter keeps exactly the entries with score above 0.1, or whose lowered content or lowered serialised metadata contains the lowered query: each passing entry as often as it occurs, and no other |
| Store.PassingConcat | src/pages/Index.tsx:205-209 | the filter distributes over concatenation, so the kept entries keep their order |
| Store.Insert | src/pages/Index.tsx:210 | inserting adds exactly one element |
| Store.SortByScore | src/pages/Index.tsx:210 | the sort is a permutation |
| Store.InsertSorted | src/pages/Index.tsx:210 | inserting into a list sorted by non-increasing score keeps it sorted |
| Store.SortSorted | src/pages/Index.tsx:210 | the sort's output is sorted by non-increasing score |
| Store.InsertStable | src/pages/Index.tsx:210 | an inserted element goes ahead of every element with its own score |
| Store.SortStable | src/pages/Index.tsx:210 | the sort is stable: for every score, the elements with that score keep their input order |
| Store.SearchResults | src/pages/Index.tsx:200-210 | the definition of the search: score, filter, then sort. `SearchResultsSpec` states what it returns |
| Store.SearchResultsSpec | src/pages/Index.tsx:200-210 | the results are exactly the passing records, each as often as among the scored records, each carrying its score and taken from the database. They are sorted by non-increasing score, and equal scores keep record order |
| Store.ExactQueryFound | src/pages/Index.tsx:200-210 | a record whose content contains the query verbatim is always among the results |
| Store.CurrentIn | src/pages/Index.tsx:98-100 | no database is current while nothing is selected; otherwise the first with the selected id |
| Store.DialogDimensions | src/pages/Index.tsx:285 | the dialog's dimensions fall back to 384 for a missing database and for 0 dimensions, since 0 is falsy |
| Store.SearchOutcome | src/pages/Index.tsx:187-212 | a blank query or no selection gives no results. A vanished database leaves the results alone. Otherwise the results are the search over the current database's records |
| Store.RunSearch | src/pages/Index.tsx:190-212 | the handler's early returns compute that outcome |
| Store.SeedVector | src/pages/Index.tsx:42 | each seeded vector has 384 entries |
| Store.SeedDatabase | src/pages/Index.tsx:31-52 | the seeded database has 384 dimensions and two records, whose vectors fit |
| Store.VectorStore.constructor | src/pages/Index.tsx:31-61 | the initial state: the seed database, the dashboard view, no selection, no record being edited, no search |
| Store.VectorStore.CreateDatabase | src/pages/Index.tsx:65-74 | appends an empty database with the given fields at the end; nothing else changes, and the length rule is kept |
| Store.VectorStore.DeleteDatabase | src/pages/Index.tsx:81-86 | removes every database with the id, keeping the others in order. Deleting the selected one clears the selection and returns to the dashboard |
| Store.VectorStore.SelectDatabase | src/pages/Index.tsx:93-96 | selects the id and shows the database view |
| Store.VectorStore.AddRecord | src/pages/Index.tsx:102-116 | without a selection nothing changes; otherwise the record is appended to the selected database |
| Store.VectorStore.ProcessDocument | src/pages/Index.tsx:124-131 | without a selection nothing changes; otherwise all chunk records are appended in order |
| Store.VectorStore.EditRecord | src/pages/Index.tsx:139-142 | remembers the record being edited |
| Store.VectorStore.CloseRecordDialog | src/pages/Index.tsx:280-283 | closing the record dialog forgets the edited record |
| Store.VectorStore.UpdateRecord | src/pages/Index.tsx:144-165 | without a selection or an edited record nothing changes. Otherwise the edited record, with new content, metadata and vector but its other fields kept, replaces every record with its id, and the edit ends |
| Store.VectorStore.SubmitRecord | src/pages/Index.tsx:284 | the record dialog's submit updates while a record is being edited, and adds otherwise; an update with a selection ends the edit, and nothing else changes the edited record |
| Store.VectorStore.DeleteRecord | src/pages/Index.tsx:172-179 | without a selection nothing changes; otherwise the record is removed from the selected database, and the length rule is kept |
| Store.VectorStore.Search | src/pages/Index.tsx:187-213 | records the query and sets the results to the search outcome, except that a vanished database leaves them unchanged |
| RecordDialog.ParseVector | src/components/AddRecordModal.tsx:61 | one entry per comma-separated field, which is the comma count plus one; entry `i` is the parse of the trimmed field `i` |
| RecordDialog.DefaultVector | src/components/AddRecordModal.tsx:72-74 | `Array.from({length: dimensions})` draws `max(dimensions, 0)` entries |
| RecordDialog.Decide | src/components/AddRecordModal.tsx:45-88 | the definition of the handler's decision. `DecideSpec` states it both ways for every outcome |
| RecordDialog.DecideSpec | src/components/AddRecordModal.tsx:45-88 | the handler's outcome, both ways. Blank content submits nothing. Unparsable non-blank metadata is rejected. A typed vector is rejected exactly when its field count differs from `dimensions`. A submission has the trimmed content, `{}` or the parsed metadata, the typed or drawn vector, and `dimensions` entries |
| RecordDialog.DecideAcceptsUniformly | src/components/AddRecordModal.tsx:47-75 | whether a form is accepted never depends on the values `parseFloat` or the random draw return |
| RecordDialog.Check | src/components/AddRecordModal.tsx:45-81 | the imperative checks with their early returns compute the handler's decision |
| RecordDialog.RecordForm.constructor | src/components/AddRecordModal.tsx:30-36 | the dialog starts from the three given texts |
| RecordDialog.RecordForm.Submit | src/components/AddRecordModal.tsx:45-88 | returns the decision; a submission clears all three fields, and a rejection keeps them |
| RecordDialog.SelectedDimensions | src/pages/Index.tsx:98-100 | with unique ids, every database with the selected id has the current database's dimensions |
| RecordDialog.AcceptedRecordKeepsFit | src/components/AddRecordModal.tsx:58-81 | assuming database ids are unique, a record accepted for a database with positive dimensions keeps every vector fitting, once added or stored over the edited record. The ids come from `Date.now()`, so two databases created in the same millisecond share one, and then the lemma does not apply |
| RecordDialog.ZeroDimensionsBreakFit | src/pages/Index.tsx:285 | a database with 0 dimensions opens the dialog with 384, and the accepted default vector then breaks the length rule. The page itself cannot create such a database: the create dialog asks for 1 to 2048 dimensions |
| UploadDialog.StripExtension | src/components/DocumentUploadModal.tsx:53 | the result is a prefix of the name. It is shorter exactly when the name ends in `.txt`, `.pdf` or `.docx` in any case, and then only that suffix is removed |
| UploadDialog.StripAppended | src/components/DocumentUploadModal.tsx:53 | exactly one extension goes: stripping `base + ext` gives `base` back, even when `base` has its own extension |
| UploadDialog.StripNoExtension | src/components/DocumentUploadModal.tsx:53 | a name without one of the extensions is kept as it is |
| UploadDialog.PhaseLabel | src/components/DocumentUploadModal.tsx:237-239 | "Chunking" exactly below 10, "Generating … embeddings" exactly from 10 up to 95, "Finalizing" exactly from 95 on |
| UploadDialog.PhaseLabelMonotone | src/components/DocumentUploadModal.tsx:237-239 | as progress grows, the label only moves forward |
| UploadDialog.BatchEmbed | src/components/DocumentUploadModal.tsx:88-94 | the batch fails exactly when some text's embedding fails; otherwise vector `i` is the embedding of text `i` |
| UploadDialog.RecordMetadata | src/components/DocumentUploadModal.tsx:102-107 | the definition of a record's metadata object. The four `RecordMetadata…` lemmas state what it keeps and what it adds |
| UploadDialog.RecordMetadataDocument | src/components/DocumentUploadModal.tsx:102-107 | a record's metadata keeps its chunk's document id and name |
| UploadDialog.RecordMetadataNumbering | src/components/DocumentUploadModal.tsx:102-107 | a record's metadata keeps its chunk's index and total |
| UploadDialog.RecordMetadataPositions | src/components/DocumentUploadModal.tsx:102-107 | a record's metadata keeps its chunk's start and end |
| UploadDialog.RecordMetadataAddedFields | src/components/DocumentUploadModal.tsx:102-107 | a record's metadata adds the configuration's three fields, the document's length and `fileType: 'processed_document'` |
| UploadDialog.AssembleRecords | src/components/DocumentUploadModal.tsx:99-109 | one record per chunk |
| UploadDialog.UploadFrom | src/components/DocumentUploadModal.tsx:83-109 | the definition of the submit past the guard. `UploadFromKind` and `UploadFromMatches` state its outcome and records |
| UploadDialog.UploadFromKind | src/components/DocumentUploadModal.tsx:83-109 | past the guard the outcome is never "not started", and it is a hang exactly when the chunker hangs |
| UploadDialog.UploadResult | src/components/DocumentUploadModal.tsx:67-109 | the definition of the submit's outcome. `UploadGuard`, `UploadHangs` and `UploadedRecords` state it |
| UploadDialog.UploadGuard | src/components/DocumentUploadModal.tsx:67 | the submit stops before chunking exactly when the name or the text is blank after trimming |
| UploadDialog.UploadHangs | src/components/DocumentUploadModal.tsx:83 | past the guard, the submit hangs exactly when the chunker does: fixed-window mode outside `WindowLoopEnds` |
| UploadDialog.UploadFromMatches | src/components/DocumentUploadModal.tsx:87-109 | record `i` has chunk `i`'s id and content, the embedding of that content as its vector, and the chunk's metadata with the added fields |
| UploadDialog.UploadedRecords | src/components/DocumentUploadModal.tsx:83-112 | an upload hands over one record per returned chunk, in order. Those chunks are numbered `0, 1, …` under the document's id and name |
| UploadDialog.DefaultOverlapHangs | src/components/DocumentUploadModal.tsx:35 | with the default overlap of 50 and "preserve sentences" off, every submit that passes the guard hangs |
| UploadDialog.UploadedVectorsFit | src/components/DocumentUploadModal.tsx:87-109 | when every embedding has the database's length, so does every uploaded vector |
| UploadDialog.Process | src/components/DocumentUploadModal.tsx:67-109 | the guard, the chunker, the embeddings and the assembly, in that order, compute the submit's outcome |
| UploadDialog.EmbedAndAssemble | src/components/DocumentUploadModal.tsx:87-109 | embedding and assembly compute the outcome past the chunker |
| UploadDialog.AfterSubmit | src/components/DocumentUploadModal.tsx:69-121 | the definition of the fields after a submit, per outcome. `UploadForm.Settle` makes those writes in the source's order |
| UploadDialog.AfterFileUpload | src/components/DocumentUploadModal.tsx:42-63 | picking a file never changes the progress |
| UploadDialog.UploadKeepsTypedName | src/components/DocumentUploadModal.tsx:52-54 | a name typed before the upload is never replaced by the file's name |
| UploadDialog.UploadForm.constructor | src/components/DocumentUploadModal.tsx:32-40 | the dialog's initial fields: empty name and text, size 500, overlap 50, sentences preserved, no progress, no error |
| UploadDialog.UploadForm.HandleFileUpload | src/components/DocumentUploadModal.tsx:42-63 | with no file nothing changes. A read text replaces the document text, names a still unnamed document after the file, and clears the error. A failed read keeps name and text and shows the error's message, or a fixed one. The configuration is untouched |
| UploadDialog.UploadForm.Submit | src/components/DocumentUploadModal.tsx:65-125 | it runs only while no error is shown, since the submit button is disabled then (line 248). The submit outcome is computed from the form's own name, text, size, overlap and sentence flag. The fields end as that outcome leaves them, and the configuration is untouched |
| UploadDialog.UploadForm.Settle | src/components/DocumentUploadModal.tsx:69-121 | the field writes for each outcome: none when the guard stops, progress 10 and the error message on a failed embedding, and name, text and progress cleared after an upload |
| UploadDialog.UploadForm.SetDocumentName | src/components/DocumentUploadModal.tsx:171 | typing a name sets the name and changes no other field |
| UploadDialog.UploadForm.SetDocumentText | src/components/DocumentUploadModal.tsx:183 | typing text sets the text and changes no other field |
| UploadDialog.UploadForm.SetChunkSize | src/components/DocumentUploadModal.tsx:198 | editing the size sets the size and changes no other field |
| UploadDialog.UploadForm.SetChunkOverlap | src/components/DocumentUploadModal.tsx:210 | editing the overlap sets the overlap and changes no other field |
| UploadDialog.UploadForm.SetPreserveSentences | src/components/DocumentUploadModal.tsx:223 | ticking the box sets the sentence flag and changes no other field |

## Left out

- `cosineSimilarity` and `textToVector` are floating-point arithmetic built on a 32-bit hash. The score is a caller-supplied function, so NaN scores and their effect on the sort comparator are not modelled.
- `embeddingService.ts` is asynchronous floating-point code. Embedding is a caller-supplied function returning one vector or `None`. A `None` stands for an exception reaching the dialog's `catch`. The service throws only when `dimensions` is not a non-negative integer, because `new Array(dimensions)` then raises a `RangeError`; a `None` stands for that case too.
- `JSON.parse`, `JSON.stringify` and `parseFloat` are caller-supplied functions. `JSON.parse` returns `None` where it would throw. `parseFloat` returns NaN for a field that is not a number, and the model's `real` cannot express NaN, so such an entry is whatever the supplied function returns.
- `JsText.Lower`: lowers ASCII letters only. `toLowerCase` also folds non-ASCII letters.
- String lengths count Dafny characters. JavaScript counts UTF-16 code units, which differ for characters beyond U+FFFF.
- The chunk configuration is integers. Fractional and NaN values of `chunkSize` or `chunkOverlap` are not modelled.
- `DocumentProcessor.ChunkDocument`: a configuration that makes the source loop forever yields the `Hangs` value instead of not returning.
- `extractTextFromFile` is not part of this model, because its body is not available. Its result is the `Extraction` parameter.
- `Date.now()` ids and `Math.random()` draws are parameters. The range of the drawn values, between -1 and 1, is not stated.
- `UploadDialog.UploadForm.Submit`: progress is left at 10 when an embedding fails. The source's progress callback, `10 + p * 85`, may already have raised it; that callback is floating point and is not modelled.
- `UploadDialog.UploadForm.Submit`: the computation runs before the field writes, which `Settle` then makes in the source's order, because an async handler's interleaving with rendering is not modelled. The intermediate progress values 0, 95 and 100 are written, but nothing observes them.
- `Store.VectorStore.Search`: like `RunSearch`, it computes the outcome before writing the results, for the same reason.
- `RecordDialog.RecordForm.constructor`: it takes the dialog's three initial texts as given. Deriving them from the edited record needs `JSON.stringify` and the rendering of numbers.
- `generateRandomVector` (src/components/AddRecordModal.tsx:38-43) is left out, because `toFixed` renders floating-point numbers.
- The "Invalid vector format" `catch` in the record dialog is left out, because `split`, `map` and `parseFloat` never throw, so it cannot be reached.
- `Store.VectorStore.EditRecord`: a record edited from the search results carries their `similarity` field, and `{...editRecord, ...}` copies it into the stored record. The model's edited record is a `Record`, which cannot hold that field.
- The search results' `similarity` field is modelled as a pair of a record and its score, instead of as a spread object.
- Toasts, alerts, dialog visibility, the `isProcessing` and `isExtracting` flags, `onClose` of the document dialog, and all rendering are left out, because they are user interface only.
- `CreateDatabaseModal.tsx`, `Dashboard.tsx`, `DatabaseView.tsx` and `Sidebar.tsx` are not part of this model, because they are view code. The create dialog submits only a name that is not blank once trimmed (src/components/CreateDatabaseModal.tsx:27). Its dimensions field is a required number input between 1 and 2048 (src/components/CreateDatabaseModal.tsx:79-87), with the browser's default step of 1.
- `Store.VectorStore.CreateDatabase`: it accepts any name and any dimensions, including names and dimensions the create dialog refuses, because that dialog is not part of this model. The page's own handler checks neither.
- `UploadDialog.UploadForm.HandleFileUpload`: the handler is atomic in the model. In the source, the name test at src/components/DocumentUploadModal.tsx:52 reads the `documentName` of the render that started the upload. The name field stays editable while the text is extracted (src/components/DocumentUploadModal.tsx:174), so a name typed during extraction can be replaced by the file's name.
- `UploadDialog.UploadForm.SetChunkSize` and `UploadDialog.UploadForm.SetChunkOverlap`: they take any integer, and `Submit` does not require the inputs' ranges. The browser's form validation refuses a submit while a typed size lies outside 100 to 2000 or a typed overlap outside 0 to half the size (src/components/DocumentUploadModal.tsx:199-200, src/components/DocumentUploadModal.tsx:211-212). An emptied field passes that validation as 0, because neither input is `required`. The ranges still let every overlap from 1 up, including the default 50, hang the fixed-window mode.
