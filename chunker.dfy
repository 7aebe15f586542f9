/**
 * parse_book_text (rag.py:51-88): a resumable generator that turns the lines
 * of the corpus into batches of paragraph chunks.
 *
 * Step, Run and Finish give the generator's meaning as a fold over the lines;
 * ParseBookText is the loop itself, proved to yield exactly what the fold
 * says. What the source promises is then proved of the fold against the
 * reference Paragraphs.
 */
module Chunker {
  import opened Text
  import opened Paragraphing

  /** MAX_LINES (rag.py:23). */
  const MaxLines := 20000
  /** The default batch_size of parse_book_text (rag.py:51). */
  const DefaultBatchSize := 5

  /** The arguments of parse_book_text other than the file, with MAX_LINES made a parameter. */
  datatype Params = Params(batchSize: int, startLine: int, maxLines: int)

  /** One `yield batch, line_number` (rag.py:78, rag.py:88). */
  datatype Yield = Yield(batch: seq<string>, lineNumber: int)

  /**
   * The generator's locals between two lines: line_number, processed_lines,
   * chunk and batch, what has been yielded so far, and whether rag.py:64 has
   * returned.
   */
  datatype Scan = Scan(lineNumber: int, processed: int, chunk: seq<string>,
                       batch: seq<string>, emitted: seq<Yield>, stopped: bool)

  /** The locals before the first line (rag.py:53-56). */
  function Start(p: Params): Scan {
    Scan(p.startLine, 0, [], [], [], false)
  }

  /**
   * One pass of the for loop (rag.py:59-81) over the line numbered n, whose
   * cleaned text is text. The loop cleans only the lines it processes; as
   * cleaning is a pure function of the line, the fold is given every line
   * cleaned up front, and Step ignores the text of a line it does not process.
   */
  function Step(p: Params, st: Scan, n: int, text: string): Scan {
    if st.stopped then st
    else if n < p.startLine then st.(lineNumber := n)
    else if st.processed >= p.maxLines then st.(lineNumber := n, stopped := true)
    else Process(p, st, n, text)
  }

  /** The batch a processed line leaves before the size test (rag.py:68-74). */
  function Absorbed(st: Scan, text: string): seq<string> {
    if text == "" && st.chunk != [] then st.batch + [JoinChunk(st.chunk)] else st.batch
  }

  /** The body of the loop for a line that is processed, given its cleaned text (rag.py:66-81). */
  function Process(p: Params, st: Scan, n: int, text: string): Scan {
    var chunk := if text != "" then st.chunk + [text] else [];
    var batch := Absorbed(st, text);
    if |batch| >= p.batchSize || st.processed >= p.maxLines then
      Scan(n, st.processed + 1, chunk, [], st.emitted + [Yield(batch, n)], false)
    else
      Scan(n, st.processed + 1, chunk, batch, st.emitted, false)
  }

  /** The locals after the first k lines, given the cleaned lines ts. */
  function Run(ts: seq<string>, p: Params, k: nat): Scan
    requires k <= |ts|
  {
    if k == 0 then Start(p) else Step(p, Run(ts, p, k - 1), k, ts[k - 1])
  }

  /** After the loop (rag.py:83-88): flush the open paragraph, then the batch if the ceiling was not reached. */
  function Finish(p: Params, st: Scan): seq<Yield> {
    if st.stopped then st.emitted
    else
      var batch := st.batch + Pending(st.chunk);
      if batch != [] && st.processed < p.maxLines then st.emitted + [Yield(batch, st.lineNumber)]
      else st.emitted
  }

  /** Everything parse_book_text yields for a file whose cleaned lines are ts. */
  function Yields(ts: seq<string>, p: Params): seq<Yield> {
    Finish(p, Run(ts, p, |ts|))
  }

  /** Everything parse_book_text yields for the file lines (line i + 1 is lines[i]). */
  function Generate(lines: seq<string>, p: Params): seq<Yield> {
    Yields(CleanAll(lines), p)
  }

  /** The chunks of all batches, in order. */
  function Chunks(ys: seq<Yield>): seq<string> {
    if ys == [] then [] else Chunks(ys[..|ys| - 1]) + ys[|ys| - 1].batch
  }

  /** The number of leading lines among the first k that parse_book_text skips (rag.py:60-61). */
  function Skipped(k: nat, startLine: int): (s: nat)
    ensures s <= k
  {
    if startLine <= 1 then 0 else if startLine - 1 <= k then startLine - 1 else k
  }

  /** The most lines one call processes. */
  function Limit(maxLines: int): nat {
    if maxLines < 0 then 0 else maxLines
  }

  /** The yields with every line number moved down by d lines. */
  function Shift(ys: seq<Yield>, d: int): (r: seq<Yield>)
    ensures |r| == |ys|
  {
    if ys == [] then [] else Shift(ys[..|ys| - 1], d) + [Yield(ys[|ys| - 1].batch, ys[|ys| - 1].lineNumber + d)]
  }

  /** parse_book_text itself: the for loop, with `continue`, the early `return` and the final flush. */
  method ParseBookText(lines: seq<string>, batchSize: int, startLine: int, maxLines: int)
    returns (ys: seq<Yield>)
    ensures ys == Generate(lines, Params(batchSize, startLine, maxLines))
  {
    var p := Params(batchSize, startLine, maxLines);
    var batch: seq<string> := [];
    var chunk: seq<string> := [];
    var processed := 0;
    var lineNumber := startLine;
    ys := [];
    ghost var ts := CleanAll(lines);
    var i := 0;
    while i < |lines|
      invariant 0 <= i <= |lines|
      invariant Run(ts, p, i) == Scan(lineNumber, processed, chunk, batch, ys, false)
    {
      ghost var st := Scan(lineNumber, processed, chunk, batch, ys, false);
      var line := lines[i];
      i := i + 1;
      assert Run(ts, p, i) == Step(p, st, i, ts[i - 1]);
      lineNumber := i;
      if lineNumber < startLine {
        continue;
      }
      if processed >= maxLines {
        RunStaysStopped(ts, p, i, |lines|);
        return;
      }
      var text := CleanLine(line);
      CleanAllAt(lines, i - 1);
      if text != "" {
        chunk := chunk + [text];
      } else if chunk != [] {
        batch := batch + [JoinChunk(chunk)];
        chunk := [];
      }
      if |batch| >= batchSize || processed >= maxLines {
        ys := ys + [Yield(batch, lineNumber)];
        batch := [];
      }
      processed := processed + 1;
      StepProcesses(p, st, i, text, Scan(lineNumber, processed, chunk, batch, ys, false));
    }
    ghost var last := Scan(lineNumber, processed, chunk, batch, ys, false);
    assert Run(ts, p, |lines|) == last;
    if chunk != [] {
      batch := batch + [JoinChunk(chunk)];
    }
    assert batch == last.batch + Pending(last.chunk);
    if batch != [] && processed < maxLines {
      ys := ys + [Yield(batch, lineNumber)];
    }
    assert Finish(p, last) == ys;
  }

  /** The pass over a line the generator processes, field by field. */
  lemma {:induction false} ProcessFields(p: Params, st: Scan, n: int, text: string)
    requires st.processed < p.maxLines
    ensures Process(p, st, n, text).lineNumber == n
    ensures Process(p, st, n, text).processed == st.processed + 1
    ensures !Process(p, st, n, text).stopped
    ensures Process(p, st, n, text).chunk == (if text != "" then st.chunk + [text] else [])
    ensures var batch := Absorbed(st, text);
      Process(p, st, n, text).batch == (if |batch| >= p.batchSize then [] else batch)
    ensures var batch := Absorbed(st, text);
      Process(p, st, n, text).emitted == (if |batch| >= p.batchSize then st.emitted + [Yield(batch, n)] else st.emitted)
  {
  }

  /** A line the generator processes leaves exactly the locals the body of the loop computes. */
  lemma {:induction false} StepProcesses(p: Params, st: Scan, n: int, text: string, next: Scan)
    requires !st.stopped && p.startLine <= n && st.processed < p.maxLines
    requires next.lineNumber == n && next.processed == st.processed + 1 && !next.stopped
    requires next.chunk == (if text != "" then st.chunk + [text] else [])
    requires var batch := Absorbed(st, text);
      && next.batch == (if |batch| >= p.batchSize then [] else batch)
      && next.emitted == (if |batch| >= p.batchSize then st.emitted + [Yield(batch, n)] else st.emitted)
    ensures Step(p, st, n, text) == next
  {
  }

  /** Once the generator has returned, later lines change nothing. */
  lemma {:induction false} RunStaysStopped(ts: seq<string>, p: Params, k: nat, k': nat)
    requires k <= k' <= |ts|
    requires Run(ts, p, k).stopped
    ensures Run(ts, p, k') == Run(ts, p, k)
    decreases k' - k
  {
    if k < k' {
      RunStaysStopped(ts, p, k, k' - 1);
    }
  }
}
