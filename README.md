# A verified model of the ingestion core of `rag.py`

`rag.py` is a small retrieval-augmented question-answering program over one
book. It has two halves:

- **Ingestion.** It reads the book line by line, cleans every line, groups
  the non-blank lines into paragraphs and hands the paragraphs out in
  batches (`parse_book_text`). It splits each batch into spans, adds them to
  a FAISS vector index and checkpoints after every batch: first the index is
  saved, then a progress cursor is written with the batch's line number
  (`embed_and_store`). A later run resumes from that cursor.
- **Retrieval.** It loads the saved index, takes the three spans closest to
  a question and joins their texts with newlines into the context of the
  prompt it sends to a language model (`query_chat`).

This project models that core in Dafny and proves what it promises.

| file | module | what it holds |
|---|---|---|
| `wrappers.dfy` | `Wrappers` | `Option` and `Result` |
| `text.dfy` | `Text` | the character classes, `str.strip`, `clean_text`, `str.join` and `str.split` |
| `paragraphs.dfy` | `Paragraphing` | cleaning a line, and `Paragraphs`: the reference meaning of the chunker |
| `chunker.dfy` | `Chunker` | `parse_book_text` as a fold over the lines, and as the loop itself (`ParseBookText`) |
| `chunker_facts.dfy` | `ChunkerFacts` | the invariant the loop keeps after every line |
| `chunker_theorems.dfy` | `ChunkerTheorems` | what the yields promise: paragraph integrity, batch sizes, line numbers, checkpoints, the `MAX_LINES` ceiling and resumption |
| `progress.dfy` | `Progress` | the progress cursor: `str`, `int` and the read/write pair |
| `pipeline.dfy` | `Pipeline` | the disk (progress file and saved index) as a class, and the checkpoint loop of `embed_and_store` |
| `retrieval.dfy` | `Retrieval` | the load failure and the context join of `query_chat` |

How the model is built:

- **The book file** is the sequence `lines` of its lines, without line
  terminators. Line number `i + 1` is `lines[i]`. Most theorems are stated
  over `ts`, the cleaned lines (`CleanAll(lines)`). `Generate(lines, p)` is
  defined as `Yields(CleanAll(lines), p)`, so every theorem about `Yields`
  applies to the raw lines with `ts := CleanAll(lines)`. Several are also
  restated over the raw lines, named `Generate…`.
- **The generator** `parse_book_text` is modelled by its whole list of
  yields.
  - `ParseBookText` keeps the source's loop, its `continue`, its early
    `return` and its final flush. It is proved to return `Generate`, a fold
    of one pass of the loop (`Step`) over the lines.
  - Everything else is proved of that fold, against an independent
    definition: `Paragraphs`, the maximal runs of non-blank cleaned lines,
    each joined with single spaces.
- **The external parts** are abstract.
  - The vector index is the sequence of its spans.
  - The text splitter is a function parameter `split` from a chunk to its
    spans.
  - The similarity search is a function parameter as well.
  - Whether `FAISS.load_local` raises is a boolean parameter.
- **The disk** is a class `Disk` with two fields that the methods update in
  place.
  - The progress file is an `Option<string>`, `None` when absent.
  - The saved index is an `Option<seq<Span>>`, `None` when `faiss_index`
    is absent.

The definitions that model the source, and the lines they follow:

- `Text.CleanText`: `clean_text` (rag.py:46-48).
- `Chunker.Step`: one pass of the loop of `parse_book_text` (rag.py:59-81).
- `Chunker.Process`: the body for a processed line (rag.py:66-81).
- `Chunker.Finish`: the flush after the loop (rag.py:83-88).
- `Progress.ReadCursor`: `get_last_processed_line` (rag.py:32-37).
- `Progress.ParseInt`: `int()` on the stripped file (rag.py:36).
- `Progress.Str`: `str()` of the line number (rag.py:43).
- `Progress.WriteCursor`: `save_last_processed_line` (rag.py:40-43).
- `Pipeline.Ingest`: the index after the batches of the loop (rag.py:122-136).
- `Pipeline.Loaded`: the index `embed_and_store` starts from (rag.py:96-112).
- `Pipeline.SavedAfterLoad`: the saved index after the load, removed when it fails to load (rag.py:98-112).

Behaviour of the source that the model keeps, and that its lemmas show:

- **A dead condition.** The `processed_lines >= MAX_LINES` disjunct at
  rag.py:77 never holds. rag.py:63-64 has already returned in that case.
  The model keeps the disjunct; `ProcessFields` shows that on a processed
  line a yield happens exactly when the batch is full.
- **What the ceiling drops.** The batch and the open paragraph still pending
  at the `MAX_LINES` ceiling are dropped, never yielded (`YieldsArePrefix`).
- **Line `start_line` is read twice.** The skip test at rag.py:60 is `<`, so
  a resumed call reads line `start_line` again.
  - It is harmless after a checkpoint at a blank line (`ResumeAtCheckpoint`).
  - After a final flush that ended on a non-blank last line, the resumed
    call yields that line again (`ResumeRereadsCursorLine`).
- **A bad progress file raises.** If the progress file does not hold a
  number, `int()` raises at rag.py:36 inside `get_last_processed_line`,
  and `embed_and_store` stops before touching anything. `ReadCursor`
  returns `Failure` (`CursorWithoutDigitFails`).
- **Signed cursors are accepted.** `int()` accepts a leading sign, so a
  progress file holding `-3` reads as the cursor -3, and a negative cursor
  skips no line.
- **The saved index stays in step.** It is saved before the cursor is
  written, and it always holds what the index in memory holds (`Agrees`).
  A run that stops after saving batch j but before writing its cursor
  (`StopBeforeCursor`) has stored that batch, and a run resumed from the
  cursor of batch j - 1 yields it again. Nothing is lost, but the spans of
  that batch are stored twice (`StopBeforeCursorRepeatsBatch`).
- **A damaged index is removed** (rag.py:109-110), while the cursor read at
  rag.py:93 is kept. The same call then goes on from that cursor with no
  index, and its first batch makes a new one (rag.py:122-136). The
  paragraphs before the cursor are never stored again: `EmbedAndStore`
  starts from `Loaded(saved, true) == None`, and below the ceiling the
  index then holds only the spans of the paragraphs from the cursor on
  (`DamagedIndexDropsEarlier`, through `IngestKeepsParagraphs` with no
  index).
- **A run that yields nothing never advances.** If a call reaches the
  `MAX_LINES` ceiling without yielding, for instance when the processed
  lines close fewer than batch_size paragraphs, it stores nothing and
  writes no cursor: `EmbedAndStore` leaves the progress file as it was
  when the yields are empty. Every later run reads the same cursor, makes
  the same call and again stores nothing.

## Model

| member | source | states |
|---|---|---|
| Text.StripTrimmed | rag.py:48 | `strip` leaves no whitespace at either end |
| Text.StripIsSlice | rag.py:48 | `strip` returns a contiguous piece of its input |
| Text.StripRemovesSpace | rag.py:48 | everything `strip` removes is whitespace, taken from the two ends |
| Text.RemoveFormatNoFormat | rag.py:48 | the filtered string has no character of category Cf, and a string without one is left unchanged |
| Text.RemoveFormatConcat | rag.py:48 | the filter keeps the order of what it keeps: filtering a concatenation is filtering each part |
| Text.RemoveFormatChar | rag.py:48 | the filter drops one character of category Cf and keeps one of any other category |
| Text.RemoveFormatKeeps | rag.py:48 | the filter keeps exactly the characters of the input that are not of category Cf |
| Text.CleanTextIsClean | rag.py:46-48 | `clean_text` returns a string with no Cf character and no whitespace at either end |
| Text.CleanTextChars | rag.py:46-48 | every character `clean_text` returns comes from its input and is not of category Cf |
| Text.CleanTextFixesClean | rag.py:46-48 | a string that is already clean is returned unchanged |
| Text.CleanTextIdempotent | rag.py:46-48 | `clean_text(clean_text(s)) == clean_text(s)` |
| Text.JoinWithEnds | rag.py:73 | a non-empty join starts with the first piece and ends with the last one |
| Text.SplitJoin | rag.py:180 | splitting a join at its separator gives the pieces back, when no piece holds the separator |
| Text.JoinSplit | rag.py:180 | joining the pieces of a split gives the string back |
| Paragraphing.CleanLineIsClean | rag.py:66 | `clean_text(line.strip())` is clean |
| Paragraphing.CleanLineFixesClean | rag.py:66 | a clean line is left as it is |
| Paragraphing.CleanAllIsClean | rag.py:66 | every cleaned line of a file is clean |
| Paragraphing.CleanAllSlice | rag.py:59-66 | cleaning is line by line: cleaning a slice of the file is slicing the cleaned file |
| Paragraphing.CleanAllConcat | rag.py:59-66 | cleaning two pieces of a file one after the other is cleaning the whole |
| Paragraphing.TrailingRun | rag.py:68-69 | the open paragraph is no longer than the lines read, and unless it is all of them a blank line comes right before it |
| Paragraphing.TrailingRunNonBlank | rag.py:68-69 | the open paragraph holds no blank line |
| Paragraphing.TrailingRunIsSuffix | rag.py:68-69 | the open paragraph is the tail of the lines read |
| Paragraphing.ParagraphsSplitAtRun | rag.py:68-74 | the paragraphs of the lines read are the closed ones followed by the open one |
| Paragraphing.ParagraphsSnocLine | rag.py:68-69 | a non-blank line extends the open paragraph |
| Paragraphing.ParagraphsSnocBlank | rag.py:70-74 | a blank line closes the open paragraph, and a second blank line adds no empty one |
| Paragraphing.ParagraphsConcat | rag.py:70-74 | paragraphs never span a blank line: splitting the lines after one splits the paragraphs |
| Paragraphing.ParagraphsOfRun | rag.py:68-74 | a run of non-blank lines is exactly one paragraph |
| Paragraphing.JoinChunkClean | rag.py:73 | the space-join of clean, non-empty lines is clean and non-empty |
| Paragraphing.ParagraphsAreClean | rag.py:66-74 | every paragraph of clean lines is a non-empty clean string |
| Chunker.ParseBookText | rag.py:51-88 | the loop, with its `continue`, early `return` and final flush, yields exactly the fold `Generate` |
| Chunker.ProcessFields | rag.py:66-81 | on a processed line (below the ceiling) a yield happens exactly when the batch is full, so the ceiling test of rag.py:77 never decides it; the counter goes up by one and the line is appended or closes the paragraph |
| Chunker.RunStaysStopped | rag.py:63-64 | once the generator has returned, later lines change nothing |
| ChunkerFacts.ProcessChunks | rag.py:72-79 | yielding a full batch moves it from the batch to the yields, losing and adding nothing |
| ChunkerFacts.ProcessAccounts | rag.py:66-81 | a processed line keeps the yields, the batch and the open paragraph equal to the paragraphs of the lines read |
| ChunkerFacts.ProcessMarks | rag.py:76-81 | a processed line keeps the yielded line numbers within the lines read and strictly increasing |
| ChunkerFacts.ProcessEmitsAtBlank | rag.py:68-78 | with a positive batch size, a batch only becomes full on a blank line, and then holds exactly batch_size chunks |
| ChunkerFacts.ProcessCheckpoints | rag.py:70-79 | a processed line keeps every yield a full batch at a blank line whose preceding yields are the paragraphs before it |
| ChunkerFacts.SkipInv | rag.py:60-61 | skipping a line before `start_line` keeps the loop invariant |
| ChunkerFacts.StopInv | rag.py:63-64 | returning at the ceiling keeps the loop invariant |
| ChunkerFacts.ProcessInv | rag.py:66-81 | processing a line keeps the loop invariant |
| ChunkerFacts.StepInv | rag.py:59-81 | one pass of the loop keeps the loop invariant |
| ChunkerFacts.RunInv | rag.py:53-81 | the loop invariant holds after every prefix of the file |
| ChunkerTheorems.FinalCounts | rag.py:59-81 | the loop processes the lines from the resume point on, at most MAX_LINES of them, and returns early only at the ceiling |
| ChunkerTheorems.FinalAccounts | rag.py:66-81 | after the loop, yields, batch and open paragraph are exactly the paragraphs of the lines processed |
| ChunkerTheorems.FinishAdds | rag.py:83-88 | the final flush adds nothing, or one batch at the last line made of the pending batch and the open paragraph, and only below the ceiling |
| ChunkerTheorems.YieldsKeepParagraphs | rag.py:66-88 | below the ceiling, the chunks of all batches in order are exactly the paragraphs of the lines from the resume point on |
| ChunkerTheorems.YieldsArePrefix | rag.py:63-88 | the chunks yielded are always a prefix of those paragraphs, short by at most batch_size at the ceiling |
| ChunkerTheorems.YieldsAreClean | rag.py:66-85 | every chunk of every batch is non-empty and clean |
| ChunkerTheorems.YieldsBatchSizes | rag.py:72-88 | with batch_size >= 1, every batch but the last has exactly batch_size chunks and each has between 1 and batch_size |
| ChunkerTheorems.EmittedMarks | rag.py:76-81 | with batch_size >= 1, the line numbers of the loop's yields lie among the processed lines and strictly increase |
| ChunkerTheorems.YieldsLineNumbers | rag.py:59-88 | with batch_size >= 1, every yielded line number lies among the lines processed, within MAX_LINES of the resume point, and they strictly increase |
| ChunkerTheorems.FlushIsLast | rag.py:83-88 | a final flush comes after every yield of the loop, at the last line of the file |
| ChunkerTheorems.EmittedCheckpoint | rag.py:70-79 | every yield of the loop is at a blank line, and the batches up to it are the paragraphs before that line |
| ChunkerTheorems.YieldsCheckpoints | rag.py:70-88 | every yield is a checkpoint: at a blank line, or the final flush at the last line, with the batches up to it the paragraphs of the lines before it |
| ChunkerTheorems.FlushCheckpoint | rag.py:83-88 | a final flush makes the batches yielded the paragraphs of every line processed |
| ChunkerTheorems.RunBeforeStart | rag.py:56-61 | before `start_line` the loop only advances the line number |
| ChunkerTheorems.ProcessShift | rag.py:66-81 | processing a line does not depend on its absolute number other than through the number it yields |
| ChunkerTheorems.StepShift | rag.py:59-81 | a pass over line n + d of the file is the pass over line n of the file cut by d lines, its numbers moved by d |
| ChunkerTheorems.RunShift | rag.py:59-81 | the loop past the skipped lines runs as the loop over the rest of the file |
| ChunkerTheorems.FinishShift | rag.py:83-88 | the final flush commutes with moving line numbers |
| ChunkerTheorems.YieldsShift | rag.py:59-61 | a call with `start_line` yields what a fresh call on the file without the lines before `start_line` yields, numbers moved back |
| ChunkerTheorems.ParagraphsAfterBlank | rag.py:70-74 | the paragraphs of the lines split after a blank line, re-reading that line, are the two halves' paragraphs |
| ChunkerTheorems.ResumeAtCheckpoint | rag.py:51-88 | the batches up to a yield at a blank line, then everything a call resumed at that line yields, are all the paragraphs, none lost or repeated; only the resumed call has to stay below the ceiling |
| ChunkerTheorems.YieldsStartParagraphs | rag.py:70-88 | the batches up to any yield are a prefix of the paragraphs of the lines from the resume point on |
| ChunkerTheorems.ResumeRereadsCursorLine | rag.py:56-88 | a call resumed at the line of a final flush on a non-blank last line yields that line again |
| ChunkerTheorems.GenerateKeepsParagraphs | rag.py:51-88 | for the raw lines: below the ceiling the chunks yielded are the paragraphs of the cleaned lines from the resume point on |
| ChunkerTheorems.GenerateChunksAreClean | rag.py:51-88 | for the raw lines: every chunk yielded is non-empty and clean |
| ChunkerTheorems.GenerateResumes | rag.py:59-61 | for the raw lines: lines before `start_line` do not affect the yields, other than their line numbers |
| ChunkerTheorems.GenerateResumeAtCheckpoint | rag.py:51-88 | for the raw lines: resuming at a checkpoint loses and repeats no paragraph, also when the first call stopped at the ceiling |
| ChunkerTheorems.GenerateStartsParagraphs | rag.py:51-88 | for the raw lines: the batches up to any yield are a prefix of the paragraphs |
| ChunkerTheorems.GenerateLineNumber | rag.py:59-88 | for the raw lines: every yield is at a line after the resume point and within the file |
| ChunkerTheorems.GenerateEarlierAtBlank | rag.py:70-79 | for the raw lines: every yield but the last one of a call is at a line that cleans to blank |
| ChunkerTheorems.YieldsEarlierAtBlank | rag.py:70-79 | every yield but the last one of a call is at a blank line |
| ChunkerTheorems.YieldsStoppedAtBlank | rag.py:63-79 | a call that returned at the ceiling yielded only at blank lines |
| ChunkerTheorems.GenerateStoppedAtBlank | rag.py:63-79 | for the raw lines: a call that returned at the ceiling yielded only at lines that clean to blank |
| Progress.DecimalDigits | rag.py:43 | `str(n)` of a natural is a non-empty run of decimal digits |
| Progress.DecimalValue | rag.py:43 | the digits of `str(n)` read back as n |
| Progress.ParseStr | rag.py:36-43 | `int(str(n)) == n` for every integer |
| Progress.ReadCursor | rag.py:32-37 | without a progress file the cursor is 0 |
| Progress.CursorRoundTrip | rag.py:32-43 | after `save_last_processed_line(n)`, `get_last_processed_line()` returns n |
| Progress.CursorWithoutDigitFails | rag.py:36 | a progress file with no digits makes `get_last_processed_line` raise |
| Pipeline.SplitAllConcat | rag.py:125-129 | splitting two lists of chunks one after the other is splitting them together |
| Pipeline.AddSpans | rag.py:131-136 | after a batch the index exists and holds its old spans followed by the batch's new ones |
| Pipeline.IngestContents | rag.py:122-136 | the index grows by exactly the spans of every chunk yielded, in order, and exists once a batch is stored |
| Pipeline.LoadAgrees | rag.py:96-112 | after the start the saved index and the one in memory hold the same spans, and a failed load leaves no index |
| Pipeline.Disk.GetLastProcessedLine | rag.py:32-37 | reads the cursor as `ReadCursor` of the progress file |
| Pipeline.Disk.SaveLastProcessedLine | rag.py:40-43 | the progress file holds `str(n)`; the saved index is untouched |
| Pipeline.Disk.SaveIndex | rag.py:146 | the saved index is the given one; the progress file is untouched |
| Pipeline.Disk.RemoveIndex | rag.py:109 | the saved index is gone; the progress file is untouched |
| Pipeline.LoadIndex | rag.py:96-112 | an existing index is loaded; one that fails to load is removed and the run starts without an index; the cursor is untouched |
| Pipeline.StoreBatch | rag.py:125-151 | the spans of the batch are added to the index or make it, the index is saved when non-empty, and the cursor is untouched |
| Pipeline.StoreAgrees | rag.py:131-151 | storing a batch and saving a non-empty index keeps the saved index holding what the index in memory holds |
| Pipeline.CheckpointLoop | rag.py:122-154 | every batch is stored and then checkpointed; the cursor is the line number of the last batch; the saved index is the index in memory, or untouched while that is still empty |
| Pipeline.IngestStep | rag.py:131-153 | one pass of the loop stores one more batch and keeps the saved index the index in memory, or untouched while that is empty |
| Pipeline.IngestAgrees | rag.py:131-151 | the saved index so kept holds what the index in memory holds |
| Pipeline.StopBeforeCursor | rag.py:122-153 | a run stopped after saving the index for batch j, before writing its cursor, has stored batches 0 to j, saved that index, and left the cursor at batch j - 1 |
| Pipeline.EmbedAndStore | rag.py:91-164 | on a bad progress file it raises and changes nothing; otherwise the index ends as the loaded one with the spans of every batch from the cursor on, the cursor is the last batch's line number, and the saved index is that index, or the loaded one while it is empty |
| Pipeline.IngestKeepsParagraphs | rag.py:122-136 | below the ceiling a run stores exactly the spans of the paragraphs of the cleaned lines from the cursor on |
| Pipeline.DamagedIndexDropsEarlier | rag.py:93-136 | after a failed load the run starts with no index, and below the ceiling stores only the paragraphs from the cursor on |
| Pipeline.IngestThen | rag.py:122-136 | storing two runs of batches one after the other stores their spans one after the other |
| Pipeline.ResumeStoresSameSpans | rag.py:93-153 | a run stopped after a checkpoint at a blank line and resumed from its cursor stores the same spans as a run never stopped |
| Pipeline.RestartReadsCheckpoint | rag.py:93-110 | a restart reads back the cursor written at a checkpoint and loads the spans the index in memory held |
| Pipeline.ResumeStoresAllParagraphs | rag.py:93-153 | a run stopped anywhere after a checkpoint at a blank line, even at the ceiling, then resumed from its cursor, stores the spans of every paragraph from the first cursor on, none lost or repeated |
| Pipeline.CeilingRunResumes | rag.py:63-153 | a run that returned at the ceiling, resumed from the cursor of its last batch, stores the spans of every paragraph from the first cursor on, none lost or repeated |
| Pipeline.StopBeforeCursorRepeatsBatch | rag.py:93-153 | a run stopped between saving batch j and writing its cursor, then resumed from the cursor of batch j - 1, loses no paragraph and stores the spans of batch j twice |
| Pipeline.ResumedRepeatsBatch | rag.py:51-88 | a call resumed at the line of yield j - 1 yields the rest of the paragraphs, starting with the chunks of batch j |
| Pipeline.ResumedAfterEarlier | rag.py:51-88 | resuming at the line of any yield but the last loses and repeats no paragraph |
| Pipeline.EarlierThenBatch | rag.py:51-88 | the chunks before batch j followed by batch j start the paragraphs |
| Pipeline.IngestRepeats | rag.py:122-136 | storing batches 0 to j and then a resumed call's batches stores batch j between the two |
| Retrieval.RetrieveContext | rag.py:169-180 | fails with "Error: Could not load FAISS index." exactly when there is no saved index or it fails to load; an empty search gives an empty context |
| Retrieval.ContextKeepsRanking | rag.py:179-180 | the context split at its newlines is the retrieved texts in ranked order, when no text holds a newline |
| Retrieval.ContextEnds | rag.py:180 | the context starts with the best match and ends with the last one kept |

## Left out

- The FAISS internals (`load_local`, `save_local`, `from_documents`, `add_documents`, `similarity_search`) are foreign library calls. The index is the sequence of its spans, and the search and a load failure are parameters.
- The Ollama embeddings, the language model call and the prompt from the LangChain hub (rag.py:11-15, rag.py:183-188) are external services with floating-point numerics. `RetrieveContext` ends at the context and does not model the answer `query_chat` returns.
- `RecursiveCharacterTextSplitter` (chunk size 1000, overlap 200) is a foreign library. It is the function parameter `split`.
- The `hash(text)` metadata of each document (rag.py:126) is process-local and non-deterministic, so a span is only its text.
- `count_lines`, `tqdm`, every `print` and the `main` loop with its exit words are display and interaction. The `rm -rf` shell call is only the saved index becoming `None`.
- File reading is not modelled: the book is given as its lines. `CleanLine` strips each line, so a kept line terminator would change nothing.
- Chunker.ParseBookText: the generator is materialised into its list of yields, so the interleaving of reading the book with embedding batches is not modelled.
- Chunker.ParseBookText: cleaning is applied to every line up front in the fold (`Generate`). The loop itself cleans only the lines it processes, as the source does. Cleaning is pure, so both give the same yields.
- Text.IsFormat: Unicode category Cf is a fixed table of code points (Unicode 15), and `Text.IsSpace` is the character set of Python's `str.isspace`. The proofs use only three facts from the tables: the space is not of category Cf (`Paragraphing.JoinChunkClean`), and `'-'` and the ASCII digits are not whitespace (`Progress.CursorRoundTrip`, through `Text.StripFixesTrimmed`).
- Progress.ParseInt: accepts an optional sign followed by decimal digits. Python's `int` also accepts underscores between digits and non-ASCII decimal digits; those make the model fail where the source would not.
- Pipeline.Disk.SaveLastProcessedLine: the progress write is modelled as atomic. A crash halfway through `f.write` could leave a truncated file, which the source does not guard against.
- Pipeline.LoadIndex: an index directory that exists but is empty is modelled like a missing one. Both take the branch at rag.py:111-112.
- Pipeline.StoreBatch: an exception from the foreign calls at rag.py:129-146 ends the run. Only the stop after `save_local` and before the cursor write is modelled as a run of its own (`StopBeforeCursor`); a stop earlier in a batch leaves the disk as the previous checkpoint left it, by the contract of `StoreBatch`.
- Pipeline.EmbedAndStore: `if vector_store:` is modelled as "an index exists". A FAISS store is always true in Python.
- Pipeline.EmbedAndStore: the value the source returns, the index object, is modelled as its spans.
