/**
 * What parse_book_text (rag.py:51-88) promises, proved of the fold in module
 * Chunker: the invariant its loop keeps after every line, and from it the
 * content, size, order and checkpoint properties of what it yields.
 */
module ChunkerFacts {
  import opened Text
  import opened Paragraphing
  import opened Chunker

  /** The yielded chunks, the batch and the open paragraph account for exactly the paragraphs of c. */
  ghost predicate Accounts(st: Scan, c: seq<string>) {
    Chunks(st.emitted) + st.batch + Pending(st.chunk) == Paragraphs(c)
    && st.chunk == TrailingRun(c)
  }

  /** The counters after k ts: how many were processed, and whether the ceiling stopped the loop. */
  ghost predicate Shape(p: Params, k: nat, st: Scan) {
    var s := Skipped(k, p.startLine);
    && 0 <= st.processed <= Limit(p.maxLines)
    && (if st.stopped then st.processed == Limit(p.maxLines) && s + st.processed < k && p.startLine <= k
        else s + st.processed == k && st.lineNumber == (if k == 0 then p.startLine else k))
  }

  /** Every yield so far is at a processed line, and the line numbers strictly increase. */
  ghost predicate Marks(s: nat, st: Scan) {
    var ys := st.emitted;
    && |ys| <= st.processed
    && (forall i :: 0 <= i < |ys| ==> s < ys[i].lineNumber <= s + st.processed)
    && (forall i, j :: 0 <= i < j < |ys| ==> ys[i].lineNumber < ys[j].lineNumber)
  }

  /**
   * The i-th yield is a checkpoint: it was yielded at a blank line, and what
   * has been yielded up to it is exactly the paragraphs that end before it.
   */
  ghost predicate CheckpointAt(ts: seq<string>, s: nat, ys: seq<Yield>, i: int) {
    && 0 <= i < |ys|
    && s < ys[i].lineNumber
    && BlankAt(ts, ys[i].lineNumber)
    && Chunks(ys[..i + 1]) == Paragraphs(Seg(ts, s, ys[i].lineNumber))
  }

  /** Line n of the file (counting from 1) exists and is blank once cleaned; ts holds the cleaned lines. */
  predicate BlankAt(ts: seq<string>, n: int) {
    0 < n <= |ts| && ts[n - 1] == ""
  }

  /**
   * For a positive batch size: the batch is never full between ts, every
   * yield is a full batch and a checkpoint, and a yield at the last line read
   * left nothing behind.
   */
  ghost predicate Checkpoints(ts: seq<string>, bs: int, s: nat, st: Scan) {
    var ys := st.emitted;
    bs >= 1 ==>
      && |st.batch| < bs
      && (forall i :: 0 <= i < |ys| ==> |ys[i].batch| == bs)
      && (forall i {:trigger CheckpointAt(ts, s, ys, i)} :: 0 <= i < |ys| ==> CheckpointAt(ts, s, ys, i))
      && (|ys| > 0 && ys[|ys| - 1].lineNumber == s + st.processed ==> st.batch == [] && st.chunk == [])
  }

  /** What the processed ts, ts[s..s + st.processed], have produced so far. */
  ghost predicate Window(ts: seq<string>, bs: int, s: nat, st: Scan) {
    && 0 <= st.processed && s + st.processed <= |ts|
    && Accounts(st, Seg(ts, s, s + st.processed))
    && Marks(s, st)
    && Checkpoints(ts, bs, s, st)
  }

  /** The loop invariant of parse_book_text after the first k ts. */
  ghost predicate Inv(ts: seq<string>, p: Params, k: nat, st: Scan) {
    Shape(p, k, st) && Window(ts, p.batchSize, Skipped(k, p.startLine), st)
  }

  /** The window does not depend on line_number or on whether the loop has returned. */
  lemma {:induction false} WindowIgnoresPosition(ts: seq<string>, bs: int, s: nat, st: Scan, st': Scan)
    requires Window(ts, bs, s, st)
    requires st'.processed == st.processed && st'.emitted == st.emitted
    requires st'.batch == st.batch && st'.chunk == st.chunk
    ensures Window(ts, bs, s, st')
  {
    AccountsIgnoresPosition(st, st', Seg(ts, s, s + st.processed));
    MarksIgnoresPosition(s, st, st');
    CheckpointsIgnorePosition(ts, bs, s, st, st');
  }

  lemma {:induction false} AccountsIgnoresPosition(st: Scan, st': Scan, c: seq<string>)
    requires Accounts(st, c)
    requires st'.emitted == st.emitted && st'.batch == st.batch && st'.chunk == st.chunk
    ensures Accounts(st', c)
  {
  }

  lemma {:induction false} MarksIgnoresPosition(s: nat, st: Scan, st': Scan)
    requires Marks(s, st)
    requires st'.processed == st.processed && st'.emitted == st.emitted
    ensures Marks(s, st')
  {
  }

  lemma {:induction false} CheckpointsIgnorePosition(ts: seq<string>, bs: int, s: nat, st: Scan, st': Scan)
    requires Checkpoints(ts, bs, s, st)
    requires st'.processed == st.processed && st'.emitted == st.emitted
    requires st'.batch == st.batch && st'.chunk == st.chunk
    ensures Checkpoints(ts, bs, s, st')
  {
  }

  lemma {:induction false} ChunksSnoc(ys: seq<Yield>, y: Yield)
    ensures Chunks(ys + [y]) == Chunks(ys) + y.batch
  {
    assert (ys + [y])[..|ys|] == ys;
  }

  lemma {:induction false} CancelRight(a: seq<string>, b: seq<string>, c: seq<string>)
    requires a + c == b + c
    ensures a == b
  {
    assert a == (a + c)[..|a|];
    assert b == (b + c)[..|b|];
  }

  /** The cleaned lines s + 1 to e, that is ts[s..e], built without slicing. */
  ghost function Seg(ts: seq<string>, s: nat, e: nat): (r: seq<string>)
    requires e <= |ts|
    ensures |r| == if s <= e then e - s else 0
    decreases e
  {
    if e <= s then [] else Seg(ts, s, e - 1) + [ts[e - 1]]
  }

  lemma {:induction false} SegIsSlice(ts: seq<string>, s: nat, e: nat)
    requires s <= e <= |ts|
    ensures Seg(ts, s, e) == ts[s..e]
    decreases e
  {
    if s < e {
      SegIsSlice(ts, s, e - 1);
      assert ts[s..e] == ts[s..e - 1] + [ts[e - 1]];
    }
  }

  /** Yielding a full batch moves it from the batch to the yielded chunks. */
  lemma {:induction false} ProcessChunks(p: Params, st: Scan, n: int, text: string)
    requires st.processed < p.maxLines
    ensures var next := Process(p, st, n, text);
      Chunks(next.emitted) + next.batch == Chunks(st.emitted) + Absorbed(st, text)
  {
    ProcessFields(p, st, n, text);
    var batch := Absorbed(st, text);
    if |batch| >= p.batchSize {
      ChunksSnoc(st.emitted, Yield(batch, n));
    }
  }

  /** A non-blank line extends the open paragraph (rag.py:68-69). */
  lemma {:induction false} ProcessAccountsLine(p: Params, st: Scan, c: seq<string>, n: int, text: string)
    requires st.processed < p.maxLines && text != ""
    requires Chunks(st.emitted) + st.batch == Paragraphs(c[..|c| - |TrailingRun(c)|])
    requires st.chunk == TrailingRun(c)
    ensures Accounts(Process(p, st, n, text), c + [text])
  {
    var next := Process(p, st, n, text);
    ProcessFields(p, st, n, text);
    ProcessChunks(p, st, n, text);
    TrailingRunSnoc(c, text);
    ParagraphsSnocLine(c, text);
    assert Absorbed(st, text) == st.batch;
    assert next.chunk == st.chunk + [text];
  }

  /** A blank line closes the open paragraph into the batch (rag.py:70-74). */
  lemma {:induction false} ProcessAccountsBlank(p: Params, st: Scan, c: seq<string>, n: int, text: string)
    requires st.processed < p.maxLines && text == ""
    requires Chunks(st.emitted) + st.batch == Paragraphs(c[..|c| - |TrailingRun(c)|])
    requires st.chunk == TrailingRun(c)
    ensures Accounts(Process(p, st, n, text), c + [text])
  {
    ProcessBlank(p, st, n);
    TrailingRunSnoc(c, text);
    ParagraphsSnocBlank(c, text);
  }

  /** A blank line closes the open paragraph into the batch, and may yield it (rag.py:70-78). */
  lemma {:induction false} ProcessBlank(p: Params, st: Scan, n: int)
    requires st.processed < p.maxLines
    ensures var next := Process(p, st, n, "");
      && Chunks(next.emitted) + next.batch + Pending(next.chunk) == Chunks(st.emitted) + st.batch + Pending(st.chunk)
      && next.chunk == []
  {
    ProcessFields(p, st, n, "");
    ProcessChunks(p, st, n, "");
  }

  /** A processed line keeps the accounting, whatever its text is. */
  lemma {:induction false} ProcessAccounts(p: Params, st: Scan, c: seq<string>, n: int, text: string)
    requires st.processed < p.maxLines
    requires Accounts(st, c)
    ensures Accounts(Process(p, st, n, text), c + [text])
  {
    var run := TrailingRun(c);
    var closed := c[..|c| - |run|];
    ParagraphsSplitAtRun(c);
    CancelRight(Chunks(st.emitted) + st.batch, Paragraphs(closed), Pending(run));
    if text != "" {
      ProcessAccountsLine(p, st, c, n, text);
    } else {
      ProcessAccountsBlank(p, st, c, n, text);
    }
  }

  lemma {:induction false} ProcessMarks(p: Params, st: Scan, s: nat, n: int, text: string)
    requires st.processed < p.maxLines && Marks(s, st) && n == s + st.processed + 1
    ensures Marks(s, Process(p, st, n, text))
  {
    ProcessFields(p, st, n, text);
    var batch := Absorbed(st, text);
    if |batch| >= p.batchSize {
      var ys := st.emitted + [Yield(batch, n)];
      assert forall i :: 0 <= i < |st.emitted| ==> ys[i] == st.emitted[i];
    }
  }

  /** A full batch is only ever completed by a blank line. */
  lemma {:induction false} ProcessEmitsAtBlank(p: Params, st: Scan, text: string)
    requires 1 <= p.batchSize && |st.batch| < p.batchSize
    requires |Absorbed(st, text)| >= p.batchSize
    ensures text == "" && |Absorbed(st, text)| == p.batchSize
  {
  }

  /** A processed line keeps the checkpoints, given that it keeps the accounting. */
  lemma {:induction false} ProcessCheckpoints(ts: seq<string>, p: Params, s: nat, st: Scan, n: int, text: string)
    requires 0 <= st.processed < p.maxLines && n == s + st.processed + 1 && n <= |ts|
    requires text == ts[n - 1]
    requires Marks(s, st) && Checkpoints(ts, p.batchSize, s, st)
    requires Accounts(Process(p, st, n, text), Seg(ts, s, n))
    ensures Checkpoints(ts, p.batchSize, s, Process(p, st, n, text))
  {
    var next := Process(p, st, n, text);
    ProcessFields(p, st, n, text);
    var batch := Absorbed(st, text);
    if p.batchSize >= 1 && |batch| >= p.batchSize {
      ProcessEmitsAtBlank(p, st, text);
      assert BlankAt(ts, n);
      EmitCheckpoints(ts, p.batchSize, s, st, next, batch, n);
    }
  }

  lemma {:induction false} CheckpointAtSnoc(ts: seq<string>, s: nat, ys: seq<Yield>, y: Yield, i: int)
    requires CheckpointAt(ts, s, ys, i)
    ensures CheckpointAt(ts, s, ys + [y], i)
  {
    var ys2 := ys + [y];
    var n := ys[i].lineNumber;
    assert ys2[i] == ys[i];
    assert ys2[..i + 1] == ys[..i + 1];
    assert Chunks(ys2[..i + 1]) == Paragraphs(Seg(ts, s, n));
  }

  /** Appending a full batch yielded at a blank line that closes everything keeps the checkpoints. */
  lemma {:induction false} EmitCheckpoints(ts: seq<string>, bs: int, s: nat, st: Scan, next: Scan, batch: seq<string>, n: int)
    requires bs >= 1 && 0 <= st.processed && n == s + st.processed + 1 && n <= |ts|
    requires Checkpoints(ts, bs, s, st)
    requires next.emitted == st.emitted + [Yield(batch, n)]
    requires next.processed == st.processed + 1 && next.batch == [] && next.chunk == []
    requires |batch| == bs && BlankAt(ts, n)
    requires Chunks(next.emitted) + next.batch + Pending(next.chunk) == Paragraphs(Seg(ts, s, n))
    ensures Checkpoints(ts, bs, s, next)
  {
    var ys := next.emitted;
    var m := |st.emitted|;
    assert Chunks(ys) == Paragraphs(Seg(ts, s, n));
    forall i | 0 <= i < |ys|
      ensures |ys[i].batch| == bs
      ensures CheckpointAt(ts, s, ys, i)
    {
      if i < m {
        assert ys[i] == st.emitted[i];
        assert CheckpointAt(ts, s, st.emitted, i);
        CheckpointAtSnoc(ts, s, st.emitted, Yield(batch, n), i);
      } else {
        assert ys[..i + 1] == ys;
      }
    }
  }

  /** Skipping a line before start_line (rag.py:60-61) keeps the invariant. */
  lemma {:induction false} SkipInv(ts: seq<string>, p: Params, k: nat, st: Scan)
    requires 0 < k <= |ts| && Inv(ts, p, k - 1, st)
    requires !st.stopped && k < p.startLine
    ensures Inv(ts, p, k, st.(lineNumber := k))
  {
    var next := st.(lineNumber := k);
    assert Skipped(k - 1, p.startLine) == k - 1 && Skipped(k, p.startLine) == k;
    assert st.processed == 0;
    assert st.emitted == [] && st.batch == [] && st.chunk == [];
  }

  /** Reaching the ceiling (rag.py:63-64) keeps the invariant. */
  lemma {:induction false} StopInv(ts: seq<string>, p: Params, k: nat, st: Scan)
    requires 0 < k <= |ts| && Inv(ts, p, k - 1, st)
    requires !st.stopped && k >= p.startLine && st.processed >= p.maxLines
    ensures Inv(ts, p, k, st.(lineNumber := k, stopped := true))
  {
    var s := Skipped(k - 1, p.startLine);
    var next := st.(lineNumber := k, stopped := true);
    assert Skipped(k, p.startLine) == s;
    WindowIgnoresPosition(ts, p.batchSize, s, st, next);
  }

  /** A stopped generator keeps the invariant. */
  lemma {:induction false} StoppedInv(ts: seq<string>, p: Params, k: nat, st: Scan)
    requires 0 < k <= |ts| && Inv(ts, p, k - 1, st)
    requires st.stopped
    ensures Inv(ts, p, k, st)
  {
    assert Skipped(k, p.startLine) == Skipped(k - 1, p.startLine);
  }

  /** A processed line keeps the invariant. */
  lemma {:induction false} ProcessInv(ts: seq<string>, p: Params, k: nat, st: Scan)
    requires 0 < k <= |ts| && Inv(ts, p, k - 1, st)
    requires !st.stopped && k >= p.startLine && st.processed < p.maxLines
    ensures Inv(ts, p, k, Process(p, st, k, ts[k - 1]))
  {
    var s := Skipped(k - 1, p.startLine);
    assert Skipped(k, p.startLine) == s;
    assert s + st.processed == k - 1;
    var next := Process(p, st, k, ts[k - 1]);
    ProcessFields(p, st, k, ts[k - 1]);
    ProcessWindow(ts, p, s, st, k);
    InvIntro(ts, p, k, s, next);
  }

  /** A processed line keeps the window, with the line just read added to it. */
  lemma {:induction false} ProcessWindow(ts: seq<string>, p: Params, s: nat, st: Scan, k: nat)
    requires 0 < k <= |ts| && st.processed < p.maxLines && s + st.processed + 1 == k
    requires Window(ts, p.batchSize, s, st)
    ensures Window(ts, p.batchSize, s, Process(p, st, k, ts[k - 1]))
  {
    var text := ts[k - 1];
    var next := Process(p, st, k, text);
    assert next.processed == st.processed + 1;
    ProcessAccountsSeg(ts, p, s, st, k);
    ProcessMarks(p, st, s, k, text);
    ProcessCheckpoints(ts, p, s, st, k, text);
    WindowIntro(ts, p.batchSize, s, next);
  }

  /** The accounting part of ProcessWindow: the window grows by the line just read. */
  lemma {:induction false} ProcessAccountsSeg(ts: seq<string>, p: Params, s: nat, st: Scan, k: nat)
    requires 0 < k <= |ts| && 0 <= st.processed < p.maxLines && s + st.processed + 1 == k
    requires Accounts(st, Seg(ts, s, k - 1))
    ensures Accounts(Process(p, st, k, ts[k - 1]), Seg(ts, s, k))
  {
    var c := Seg(ts, s, k - 1);
    assert Seg(ts, s, k) == c + [ts[k - 1]];
    ProcessAccounts(p, st, c, k, ts[k - 1]);
  }

  lemma {:induction false} WindowIntro(ts: seq<string>, bs: int, s: nat, st: Scan)
    requires 0 <= st.processed && s + st.processed <= |ts|
    requires Accounts(st, Seg(ts, s, s + st.processed))
    requires Marks(s, st) && Checkpoints(ts, bs, s, st)
    ensures Window(ts, bs, s, st)
  {
  }

  lemma {:induction false} InvIntro(ts: seq<string>, p: Params, k: nat, s: nat, st: Scan)
    requires s == Skipped(k, p.startLine)
    requires Shape(p, k, st) && Window(ts, p.batchSize, s, st)
    ensures Inv(ts, p, k, st)
  {
  }

  /** One pass of the loop keeps the invariant. */
  lemma {:induction false} StepInv(ts: seq<string>, p: Params, k: nat, st: Scan)
    requires 0 < k <= |ts| && Inv(ts, p, k - 1, st)
    ensures Inv(ts, p, k, Step(p, st, k, ts[k - 1]))
  {
    if st.stopped {
      StoppedInv(ts, p, k, st);
    } else if k < p.startLine {
      SkipInv(ts, p, k, st);
    } else if st.processed >= p.maxLines {
      StopInv(ts, p, k, st);
    } else {
      ProcessInv(ts, p, k, st);
    }
  }

  /** The invariant holds after every prefix of the file. */
  lemma {:induction false} RunInv(ts: seq<string>, p: Params, k: nat)
    requires k <= |ts|
    ensures Inv(ts, p, k, Run(ts, p, k))
  {
    if k > 0 {
      RunInv(ts, p, k - 1);
      StepInv(ts, p, k, Run(ts, p, k - 1));
    }
  }

  /** The accounting part of the invariant, over a slice of the cleaned lines. */
  lemma {:induction false} InvAccounts(ts: seq<string>, p: Params, k: nat, st: Scan)
    requires Inv(ts, p, k, st)
    ensures var s := Skipped(k, p.startLine);
      && 0 <= st.processed && s + st.processed <= |ts|
      && Chunks(st.emitted) + st.batch + Pending(st.chunk) == Paragraphs(ts[s..s + st.processed])
  {
    var s := Skipped(k, p.startLine);
    SegIsSlice(ts, s, s + st.processed);
  }

  /** The line-number part of the invariant after the first k lines. */
  lemma {:induction false} RunMarks(ts: seq<string>, p: Params, k: nat)
    requires k <= |ts|
    ensures Marks(Skipped(k, p.startLine), Run(ts, p, k))
  {
    RunInv(ts, p, k);
  }

  /** The checkpoint part of the invariant after the first k lines. */
  lemma {:induction false} RunCheckpoints(ts: seq<string>, p: Params, k: nat)
    requires k <= |ts|
    ensures Checkpoints(ts, p.batchSize, Skipped(k, p.startLine), Run(ts, p, k))
  {
    RunInv(ts, p, k);
  }
}
