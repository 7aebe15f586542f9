/**
 * The checkpoint loop of embed_and_store (rag.py:91-164). The vector store
 * is an abstract sequence of spans, the texts of the stored documents, and
 * the text splitter an abstract function from a chunk to its spans. The
 * files that outlive a run, the progress file and the saved index, are the
 * fields of a Disk.
 */
module Pipeline {
  import opened Wrappers
  import opened Text
  import opened Paragraphing
  import opened Chunker
  import opened Progress
  import opened ChunkerFacts
  import opened ChunkerTheorems

  /** The page content of one stored document. */
  type Span = string

  /** The spans of an index: none when there is no index. */
  function Contents(index: Option<seq<Span>>): seq<Span> {
    if index.Some? then index.value else []
  }

  /** vector_store.index.ntotal > 0 for an existing index (rag.py:145, rag.py:156). */
  predicate NonEmpty(index: Option<seq<Span>>) {
    index.Some? && |index.value| > 0
  }

  /** text_splitter.split_documents(docs) (rag.py:125-129): every chunk split, in order. */
  function SplitAll(split: string -> seq<Span>, batch: seq<string>): seq<Span>
    decreases |batch|
  {
    if batch == [] then [] else SplitAll(split, batch[..|batch| - 1]) + split(batch[|batch| - 1])
  }

  /** Splitting chunks one after the other is splitting them together. */
  lemma {:induction false} SplitAllConcat(split: string -> seq<Span>, a: seq<string>, b: seq<string>)
    ensures SplitAll(split, a + b) == SplitAll(split, a) + SplitAll(split, b)
    decreases |b|
  {
    if b == [] {
      assert a + b == a;
    } else {
      var ab := a + b;
      var init, last := b[..|b| - 1], b[|b| - 1];
      assert ab[..|ab| - 1] == a + init;
      assert ab[|ab| - 1] == last;
      SplitAllConcat(split, a, init);
      var x, y, z := SplitAll(split, a), SplitAll(split, init), split(last);
      assert SplitAll(split, ab) == (x + y) + z;
      assert SplitAll(split, b) == y + z;
      ConcatAssoc(x, y, z);
    }
  }

  /**
   * The index after one batch (rag.py:131-136): the spans are added to the
   * index, or a new index is made of them when there is none.
   */
  function AddSpans(index: Option<seq<Span>>, spans: seq<Span>): (r: Option<seq<Span>>)
    ensures r.Some? && Contents(r) == Contents(index) + spans
  {
    match index
    case None => Some(spans)
    case Some(xs) => Some(xs + spans)
  }

  /** The index after the batches of ys, one after the other. */
  function Ingest(index: Option<seq<Span>>, split: string -> seq<Span>, ys: seq<Yield>): Option<seq<Span>>
    decreases |ys|
  {
    if ys == [] then index
    else AddSpans(Ingest(index, split, ys[..|ys| - 1]), SplitAll(split, ys[|ys| - 1].batch))
  }

  /**
   * The index grows by exactly the spans of every chunk yielded, in order,
   * and exists once a batch has been stored.
   */
  lemma {:induction false} IngestContents(index: Option<seq<Span>>, split: string -> seq<Span>, ys: seq<Yield>)
    ensures Contents(Ingest(index, split, ys)) == Contents(index) + SplitAll(split, Chunks(ys))
    ensures ys == [] ==> Ingest(index, split, ys) == index
    ensures ys != [] ==> Ingest(index, split, ys).Some?
    decreases |ys|
  {
    if ys != [] {
      var init := ys[..|ys| - 1];
      IngestContents(index, split, init);
      SplitAllConcat(split, Chunks(init), ys[|ys| - 1].batch);
    }
  }

  /** The in-memory index after the start of embed_and_store (rag.py:96-112). */
  function Loaded(saved: Option<seq<Span>>, loadFails: bool): Option<seq<Span>> {
    if saved.Some? && !loadFails then saved else None
  }

  /** What is left of the saved index after the start of embed_and_store: a damaged one is removed (rag.py:109). */
  function SavedAfterLoad(saved: Option<seq<Span>>, loadFails: bool): Option<seq<Span>> {
    if saved.Some? && loadFails then None else saved
  }

  /** Loading keeps the saved index and the one in memory alike. */
  lemma {:induction false} LoadAgrees(saved: Option<seq<Span>>, loadFails: bool)
    ensures Agrees(SavedAfterLoad(saved, loadFails), Loaded(saved, loadFails))
    ensures loadFails ==> Loaded(saved, loadFails) == None
  {
  }

  /**
   * What outlives a run: the progress file (PROGRESS_FILE, None when it does
   * not exist) and the saved index under FAISS_DB_PATH (None when there is
   * none).
   */
  class Disk {
    var progress: Option<string>
    var saved: Option<seq<Span>>

    constructor(progress: Option<string>, saved: Option<seq<Span>>)
      ensures this.progress == progress && this.saved == saved
    {
      this.progress := progress;
      this.saved := saved;
    }

    /** get_last_processed_line (rag.py:32-37). */
    method GetLastProcessedLine() returns (r: Result<int, CursorError>)
      ensures r == ReadCursor(progress)
    {
      match progress
      case None =>
        r := Success(0);
      case Some(contents) =>
        var n := ParseInt(Strip(contents));
        if n.None? {
          r := Failure(NotANumber(contents));
        } else {
          r := Success(n.value);
        }
    }

    /** save_last_processed_line (rag.py:40-43): the file now holds str(n) and nothing else. */
    method SaveLastProcessedLine(n: int)
      modifies this
      ensures progress == WriteCursor(n)
      ensures saved == old(saved)
    {
      progress := Some(Str(n));
    }

    /** vector_store.save_local(FAISS_DB_PATH). */
    method SaveIndex(index: seq<Span>)
      modifies this
      ensures saved == Some(index)
      ensures progress == old(progress)
    {
      saved := Some(index);
    }

    /** rm -rf FAISS_DB_PATH (rag.py:109). */
    method RemoveIndex()
      modifies this
      ensures saved == None
      ensures progress == old(progress)
    {
      saved := None;
    }
  }

  /**
   * The start of embed_and_store (rag.py:96-112): an existing index is
   * loaded; one that fails to load is removed, and the run starts without
   * an index. loadFails says whether FAISS.load_local raises.
   */
  method LoadIndex(disk: Disk, loadFails: bool) returns (index: Option<seq<Span>>)
    modifies disk
    ensures index == Loaded(old(disk.saved), loadFails)
    ensures disk.saved == SavedAfterLoad(old(disk.saved), loadFails)
    ensures disk.progress == old(disk.progress)
  {
    index := None;
    if disk.saved.Some? {
      if loadFails {
        disk.RemoveIndex();
        index := None;
      } else {
        index := disk.saved;
      }
    }
  }

  /**
   * One batch, up to the cursor write (rag.py:125-151): its chunks are split
   * and added to the index, and the index is saved when it is not empty.
   * The cursor is not touched, so a run that stops anywhere in here leaves
   * the progress file as it was.
   */
  method StoreBatch(disk: Disk, index: Option<seq<Span>>, split: string -> seq<Span>, batch: seq<string>)
    returns (next: Option<seq<Span>>)
    modifies disk
    ensures next == AddSpans(index, SplitAll(split, batch))
    ensures disk.saved == (if NonEmpty(next) then next else old(disk.saved))
    ensures disk.progress == old(disk.progress)
  {
    var spans := SplitAll(split, batch);
    if index.Some? {
      next := Some(index.value + spans);
    } else {
      next := Some(spans);
    }
    if next.Some? && |next.value| > 0 {
      disk.SaveIndex(next.value);
    }
  }

  /**
   * The saved index is in step with the one in memory: it is that index once
   * that one holds a span, and holds none itself before.
   */
  predicate Agrees(saved: Option<seq<Span>>, index: Option<seq<Span>>) {
    if NonEmpty(index) then saved == index else !NonEmpty(saved)
  }

  /** Storing a batch, and saving the index when it is not empty, keeps the saved index in step. */
  lemma {:induction false} StoreAgrees(saved: Option<seq<Span>>, index: Option<seq<Span>>, spans: seq<Span>, saved': Option<seq<Span>>)
    requires Agrees(saved, index)
    requires saved' == if NonEmpty(AddSpans(index, spans)) then AddSpans(index, spans) else saved
    ensures Agrees(saved', AddSpans(index, spans))
  {
    var next := AddSpans(index, spans);
    if !NonEmpty(next) {
      assert Contents(next) == [];
    }
  }

  /** One pass of the checkpoint loop keeps its invariant. */
  lemma {:induction false} IngestStep(index0: Option<seq<Span>>, split: string -> seq<Span>, ys: seq<Yield>, j: nat,
                   index: Option<seq<Span>>, first: Option<seq<Span>>, saved': Option<seq<Span>>)
    requires j < |ys| && index == Ingest(index0, split, ys[..j])
    requires var next := AddSpans(index, SplitAll(split, ys[j].batch));
      saved' == if NonEmpty(next) then next else if NonEmpty(index) then index else first
    ensures var next := AddSpans(index, SplitAll(split, ys[j].batch));
      && next == Ingest(index0, split, ys[..j + 1])
      && saved' == (if NonEmpty(next) then next else first)
  {
    assert ys[..j + 1][..j] == ys[..j];
  }

  /** The saved index of the checkpoint loop agrees with the index in memory. */
  lemma {:induction false} IngestAgrees(index0: Option<seq<Span>>, split: string -> seq<Span>, ys: seq<Yield>, first: Option<seq<Span>>)
    requires Agrees(first, index0)
    ensures var index := Ingest(index0, split, ys);
      Agrees(if NonEmpty(index) then index else first, index)
  {
    IngestContents(index0, split, ys);
  }

  /**
   * The for loop of embed_and_store (rag.py:122-154): every batch is stored
   * and then checkpointed. The index is saved before the cursor is written,
   * the cursor written is the batch's line number, and the saved index keeps
   * holding what the index in memory holds.
   */
  method CheckpointLoop(disk: Disk, index0: Option<seq<Span>>, split: string -> seq<Span>, ys: seq<Yield>)
    returns (index: Option<seq<Span>>)
    modifies disk
    requires Agrees(disk.saved, index0)
    ensures index == Ingest(index0, split, ys)
    ensures disk.progress == (if ys == [] then old(disk.progress) else WriteCursor(ys[|ys| - 1].lineNumber))
    ensures disk.saved == (if NonEmpty(index) then index else old(disk.saved))
    ensures Agrees(disk.saved, index)
  {
    index := index0;
    ghost var first := disk.saved;
    var j := 0;
    while j < |ys|
      invariant 0 <= j <= |ys|
      invariant index == Ingest(index0, split, ys[..j])
      invariant disk.progress == (if j == 0 then old(disk.progress) else WriteCursor(ys[j - 1].lineNumber))
      invariant disk.saved == (if NonEmpty(index) then index else first)
    {
      var next := StoreBatch(disk, index, split, ys[j].batch);
      IngestStep(index0, split, ys, j, index, first, disk.saved);
      disk.SaveLastProcessedLine(ys[j].lineNumber);
      index := next;
      j := j + 1;
    }
    assert ys[..|ys|] == ys;
    IngestAgrees(index0, split, ys, first);
  }

  /**
   * A run of the checkpoint loop that stops, by an exception or a crash,
   * after batch j is stored and its index saved (rag.py:125-151) but before
   * its cursor is written (rag.py:153). The cursor is that of batch j - 1,
   * or untouched for the first batch, while the saved index already holds
   * batch j.
   */
  method StopBeforeCursor(disk: Disk, index0: Option<seq<Span>>, split: string -> seq<Span>, ys: seq<Yield>, j: nat)
    returns (index: Option<seq<Span>>)
    modifies disk
    requires Agrees(disk.saved, index0) && j < |ys|
    ensures index == Ingest(index0, split, ys[..j + 1])
    ensures disk.progress == (if j == 0 then old(disk.progress) else WriteCursor(ys[j - 1].lineNumber))
    ensures disk.saved == (if NonEmpty(index) then index else old(disk.saved))
  {
    var before := CheckpointLoop(disk, index0, split, ys[..j]);
    index := StoreBatch(disk, before, split, ys[j].batch);
    assert ys[..j + 1][..j] == ys[..j];
  }

  /**
   * embed_and_store (rag.py:91-164) over the file lines. It stops with the
   * error of get_last_processed_line before touching anything when the
   * progress file does not hold a number. Otherwise it loads the saved
   * index, runs the checkpoint loop over what parse_book_text yields from
   * the cursor on, and saves the index once more when it is not empty.
   */
  method EmbedAndStore(disk: Disk, lines: seq<string>, split: string -> seq<Span>, loadFails: bool)
    returns (r: Result<Option<seq<Span>>, CursorError>)
    modifies disk
    ensures ReadCursor(old(disk.progress)).Failure? ==>
      r == Failure(ReadCursor(old(disk.progress)).error) && disk.progress == old(disk.progress) && disk.saved == old(disk.saved)
    ensures ReadCursor(old(disk.progress)).Success? ==>
      var ys := Generate(lines, Params(DefaultBatchSize, ReadCursor(old(disk.progress)).value, MaxLines));
      && r == Success(Ingest(Loaded(old(disk.saved), loadFails), split, ys))
      && disk.progress == (if ys == [] then old(disk.progress) else WriteCursor(ys[|ys| - 1].lineNumber))
      && disk.saved == (if NonEmpty(r.value) then r.value else SavedAfterLoad(old(disk.saved), loadFails))
      && Agrees(disk.saved, r.value)
  {
    var cursor := disk.GetLastProcessedLine();
    if cursor.Failure? {
      return Failure(cursor.error);
    }
    var index := LoadIndex(disk, loadFails);
    LoadAgrees(old(disk.saved), loadFails);
    var ys := ParseBookText(lines, DefaultBatchSize, cursor.value, MaxLines);
    index := CheckpointLoop(disk, index, split, ys);
    if index.Some? && |index.value| > 0 {
      disk.SaveIndex(index.value);
    }
    return Success(index);
  }

  /**
   * Below the ceiling, a run stores exactly the spans of the paragraphs of
   * the cleaned lines from the cursor on, after what the loaded index held.
   */
  lemma {:induction false} IngestKeepsParagraphs(index: Option<seq<Span>>, split: string -> seq<Span>, lines: seq<string>, p: Params)
    requires |lines| - Skipped(|lines|, p.startLine) < Limit(p.maxLines)
    ensures Contents(Ingest(index, split, Generate(lines, p)))
      == Contents(index) + SplitAll(split, Paragraphs(CleanAll(lines[Skipped(|lines|, p.startLine)..])))
  {
    IngestContents(index, split, Generate(lines, p));
    GenerateKeepsParagraphs(lines, p);
  }

  /**
   * A saved index that fails to load is deleted and the same run goes on
   * from the cursor with no index (rag.py:93, rag.py:107-110, rag.py:122-136):
   * below the ceiling it stores only the paragraphs from the cursor on, so
   * the paragraphs before the cursor are never stored again.
   */
  lemma {:induction false} DamagedIndexDropsEarlier(saved: Option<seq<Span>>, split: string -> seq<Span>, lines: seq<string>, p: Params)
    requires |lines| - Skipped(|lines|, p.startLine) < Limit(p.maxLines)
    ensures Loaded(saved, true) == None
    ensures Contents(Ingest(Loaded(saved, true), split, Generate(lines, p)))
      == SplitAll(split, Paragraphs(CleanAll(lines[Skipped(|lines|, p.startLine)..])))
  {
    IngestKeepsParagraphs(None, split, lines, p);
  }

  /** Storing two runs of batches one after the other is storing them together. */
  lemma {:induction false} IngestThen(index: Option<seq<Span>>, split: string -> seq<Span>, a: seq<Yield>, b: seq<Yield>)
    ensures Contents(Ingest(Ingest(index, split, a), split, b))
      == Contents(index) + SplitAll(split, Chunks(a)) + SplitAll(split, Chunks(b))
  {
    IngestContents(index, split, a);
    IngestContents(Ingest(index, split, a), split, b);
  }

  /**
   * A run stopped after the checkpoint of a yield at a blank line, then
   * resumed from the cursor it wrote with the index it saved, stores the
   * same spans as a run that was never stopped (rag.py:93-153).
   */
  lemma {:induction false} ResumeStoresSameSpans(index: Option<seq<Span>>, split: string -> seq<Span>, lines: seq<string>, p: Params, i: int)
    requires p.batchSize >= 1
    requires |lines| - Skipped(|lines|, p.startLine) < Limit(p.maxLines)
    requires 0 <= i < |Generate(lines, p)|
    requires var n := Generate(lines, p)[i].lineNumber; 0 < n <= |lines| && CleanLine(lines[n - 1]) == ""
    ensures var ys := Generate(lines, p);
      var resumed := Generate(lines, p.(startLine := ys[i].lineNumber));
      Contents(Ingest(Ingest(index, split, ys[..i + 1]), split, resumed)) == Contents(Ingest(index, split, ys))
  {
    GenerateLineNumber(lines, p, i);
    ResumeStoresAllParagraphs(index, split, lines, p, i);
    IngestKeepsParagraphs(index, split, lines, p);
  }

  /**
   * The two halves of such a resumption on the disk: the cursor written at
   * the checkpoint reads back as its line number, and the saved index
   * loads as the index in memory when it is not empty.
   */
  lemma {:induction false} RestartReadsCheckpoint(n: int, saved: Option<seq<Span>>, index: Option<seq<Span>>)
    requires Agrees(saved, index)
    ensures ReadCursor(WriteCursor(n)) == Success(n)
    ensures Contents(Loaded(saved, false)) == Contents(index)
  {
    CursorRoundTrip(n);
  }

  /**
   * A run that stops at the MAX_LINES ceiling, or anywhere after the
   * checkpoint of yield i, and is resumed from the cursor it wrote with the
   * index it saved, stores the spans of every paragraph of the cleaned lines
   * from the first cursor on, none lost or repeated. Only the resumed call
   * has to stay below the ceiling.
   */
  lemma {:induction false} ResumeStoresAllParagraphs(index: Option<seq<Span>>, split: string -> seq<Span>, lines: seq<string>, p: Params, i: int)
    requires p.batchSize >= 1
    requires 0 <= i < |Generate(lines, p)|
    requires var n := Generate(lines, p)[i].lineNumber; 0 < n <= |lines| && CleanLine(lines[n - 1]) == ""
    requires |lines| - (Generate(lines, p)[i].lineNumber - 1) < Limit(p.maxLines)
    ensures var ys := Generate(lines, p);
      var resumed := Generate(lines, p.(startLine := ys[i].lineNumber));
      Contents(Ingest(Ingest(index, split, ys[..i + 1]), split, resumed))
        == Contents(index) + SplitAll(split, Paragraphs(CleanAll(lines[Skipped(|lines|, p.startLine)..])))
  {
    var ys := Generate(lines, p);
    var resumed := Generate(lines, p.(startLine := ys[i].lineNumber));
    IngestThen(index, split, ys[..i + 1], resumed);
    GenerateResumeAtCheckpoint(lines, p, i);
    SplitAllConcat(split, Chunks(ys[..i + 1]), Chunks(resumed));
  }

  /**
   * A run that returned at the MAX_LINES ceiling, resumed from the cursor of
   * its last batch with the index it saved, stores the spans of every
   * paragraph from the first cursor on, provided the resumed run stays
   * below the ceiling (rag.py:63-64, rag.py:93-153).
   */
  lemma {:induction false} CeilingRunResumes(index: Option<seq<Span>>, split: string -> seq<Span>, lines: seq<string>, p: Params)
    requires p.batchSize >= 1 && Final(CleanAll(lines), p).stopped
    requires |Generate(lines, p)| > 0
    requires |lines| - (Generate(lines, p)[|Generate(lines, p)| - 1].lineNumber - 1) < Limit(p.maxLines)
    ensures var ys := Generate(lines, p);
      var resumed := Generate(lines, p.(startLine := ys[|ys| - 1].lineNumber));
      Contents(Ingest(Ingest(index, split, ys), split, resumed))
        == Contents(index) + SplitAll(split, Paragraphs(CleanAll(lines[Skipped(|lines|, p.startLine)..])))
  {
    var ys := Generate(lines, p);
    GenerateStoppedAtBlank(lines, p, |ys| - 1);
    ResumeStoresAllParagraphs(index, split, lines, p, |ys| - 1);
    assert ys[..|ys| - 1 + 1] == ys;
  }

  /**
   * A run stopped between saving the index for batch j and writing its
   * cursor (StopBeforeCursor) is resumed from the cursor of batch j - 1: it
   * reads that cursor back, loses no paragraph, and stores the spans of
   * batch j a second time, because the resumed call yields its chunks again
   * first. Only the resumed call has to stay below the ceiling.
   */
  lemma {:induction false} StopBeforeCursorRepeatsBatch(index: Option<seq<Span>>, split: string -> seq<Span>, lines: seq<string>, p: Params, j: int)
    requires p.batchSize >= 1
    requires 1 <= j < |Generate(lines, p)|
    requires |lines| - (Generate(lines, p)[j - 1].lineNumber - 1) < Limit(p.maxLines)
    ensures var ys := Generate(lines, p);
      var cursor := ys[j - 1].lineNumber;
      var resumed := Generate(lines, p.(startLine := cursor));
      && ReadCursor(WriteCursor(cursor)) == Success(cursor)
      && Contents(Ingest(Ingest(index, split, ys[..j + 1]), split, resumed))
        == Contents(Ingest(index, split, ys[..j])) + SplitAll(split, ys[j].batch) + SplitAll(split, Chunks(resumed))
      && Chunks(ys[..j]) + Chunks(resumed) == Paragraphs(CleanAll(lines[Skipped(|lines|, p.startLine)..]))
      && |ys[j].batch| <= |Chunks(resumed)| && Chunks(resumed)[..|ys[j].batch|] == ys[j].batch
  {
    var ys := Generate(lines, p);
    var cursor := ys[j - 1].lineNumber;
    CursorRoundTrip(cursor);
    ResumedRepeatsBatch(lines, p, j);
    IngestRepeats(index, split, ys, j, Generate(lines, p.(startLine := cursor)));
  }

  /**
   * The chunk side of StopBeforeCursorRepeatsBatch: a call resumed at the
   * line of yield j - 1 yields the rest of the paragraphs, starting with the
   * chunks of batch j.
   */
  lemma {:induction false} ResumedRepeatsBatch(lines: seq<string>, p: Params, j: int)
    requires p.batchSize >= 1
    requires 1 <= j < |Generate(lines, p)|
    requires |lines| - (Generate(lines, p)[j - 1].lineNumber - 1) < Limit(p.maxLines)
    ensures var ys := Generate(lines, p);
      var resumed := Generate(lines, p.(startLine := ys[j - 1].lineNumber));
      && Chunks(ys[..j]) + Chunks(resumed) == Paragraphs(CleanAll(lines[Skipped(|lines|, p.startLine)..]))
      && |ys[j].batch| <= |Chunks(resumed)| && Chunks(resumed)[..|ys[j].batch|] == ys[j].batch
  {
    var ys := Generate(lines, p);
    ResumedAfterEarlier(lines, p, j);
    EarlierThenBatch(lines, p, j);
    RestStartsWith(Chunks(ys[..j]), ys[j].batch, Chunks(Generate(lines, p.(startLine := ys[j - 1].lineNumber))),
                   Paragraphs(CleanAll(lines[Skipped(|lines|, p.startLine)..])));
  }

  /** Yield j - 1 is a checkpoint at a blank line, so resuming there loses and repeats nothing. */
  lemma {:induction false} ResumedAfterEarlier(lines: seq<string>, p: Params, j: int)
    requires p.batchSize >= 1
    requires 1 <= j < |Generate(lines, p)|
    requires |lines| - (Generate(lines, p)[j - 1].lineNumber - 1) < Limit(p.maxLines)
    ensures var ys := Generate(lines, p);
      Chunks(ys[..j]) + Chunks(Generate(lines, p.(startLine := ys[j - 1].lineNumber)))
        == Paragraphs(CleanAll(lines[Skipped(|lines|, p.startLine)..]))
  {
    var ys := Generate(lines, p);
    GenerateEarlierAtBlank(lines, p, j - 1);
    GenerateResumeAtCheckpoint(lines, p, j - 1);
    assert ys[..j - 1 + 1] == ys[..j];
  }

  /** The chunks before batch j, then batch j, start the paragraphs. */
  lemma {:induction false} EarlierThenBatch(lines: seq<string>, p: Params, j: int)
    requires p.batchSize >= 1
    requires 0 <= j < |Generate(lines, p)|
    ensures var ys, ps := Generate(lines, p), Paragraphs(CleanAll(lines[Skipped(|lines|, p.startLine)..]));
      |Chunks(ys[..j]) + ys[j].batch| <= |ps| && ps[..|Chunks(ys[..j]) + ys[j].batch|] == Chunks(ys[..j]) + ys[j].batch
  {
    GenerateStartsParagraphs(lines, p, j);
    PrefixThenBatch(Generate(lines, p), j, Paragraphs(CleanAll(lines[Skipped(|lines|, p.startLine)..])));
  }

  lemma {:induction false} PrefixThenBatch(ys: seq<Yield>, j: int, ps: seq<string>)
    requires 0 <= j < |ys|
    requires |Chunks(ys[..j + 1])| <= |ps| && ps[..|Chunks(ys[..j + 1])|] == Chunks(ys[..j + 1])
    ensures |Chunks(ys[..j]) + ys[j].batch| <= |ps| && ps[..|Chunks(ys[..j]) + ys[j].batch|] == Chunks(ys[..j]) + ys[j].batch
  {
    assert ys[..j + 1] == ys[..j] + [ys[j]];
    ChunksSnoc(ys[..j], ys[j]);
  }

  /** When a + r and a + b both start ps, and a + r is all of it, r starts with b. */
  lemma {:induction false} RestStartsWith(a: seq<string>, b: seq<string>, r: seq<string>, ps: seq<string>)
    requires a + r == ps && |a + b| <= |ps| && ps[..|a + b|] == a + b
    ensures |b| <= |r| && r[..|b|] == b
  {
    assert r[..|b|] == ps[..|a + b|][|a|..];
  }

  /** Storing batches 0 to j, then the batches of a resumed call, stores batch j between the two. */
  lemma {:induction false} IngestRepeats(index: Option<seq<Span>>, split: string -> seq<Span>, ys: seq<Yield>, j: int, resumed: seq<Yield>)
    requires 0 <= j < |ys|
    ensures Contents(Ingest(Ingest(index, split, ys[..j + 1]), split, resumed))
      == Contents(Ingest(index, split, ys[..j])) + SplitAll(split, ys[j].batch) + SplitAll(split, Chunks(resumed))
  {
    assert ys[..j + 1][..j] == ys[..j];
    IngestContents(Ingest(index, split, ys[..j + 1]), split, resumed);
  }
}
