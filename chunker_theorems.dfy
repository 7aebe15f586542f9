/**
 * What parse_book_text (rag.py:51-88) promises about everything one call
 * yields, proved of Generate from the loop invariant of module ChunkerFacts:
 * paragraph integrity, chunk and batch sizes, the order of the line numbers,
 * the checkpoints, the MAX_LINES ceiling and resumption.
 */
module ChunkerTheorems {
  import opened Text
  import opened Paragraphing
  import opened Chunker
  import opened ChunkerFacts

  /** How many lines one call processes: those from the resume point on, at most MAX_LINES of them. */
  function Processed(ts: seq<string>, p: Params): (m: nat)
    ensures Skipped(|ts|, p.startLine) + m <= |ts|
  {
    var rest := |ts| - Skipped(|ts|, p.startLine);
    if rest < Limit(p.maxLines) then rest else Limit(p.maxLines)
  }

  /** The cleaned lines one call processes. */
  function ReadLines(ts: seq<string>, p: Params): seq<string> {
    var s := Skipped(|ts|, p.startLine);
    ts[s..s + Processed(ts, p)]
  }

  /** The loop's locals after the whole file. */
  function Final(ts: seq<string>, p: Params): Scan {
    Run(ts, p, |ts|)
  }

  /** How many lines the loop processed, and whether it stopped at the ceiling. */
  lemma {:induction false} FinalCounts(ts: seq<string>, p: Params)
    ensures var st := Final(ts, p);
      && st.processed == Processed(ts, p)
      && (st.stopped ==> st.processed == Limit(p.maxLines))
      && (!st.stopped ==> Skipped(|ts|, p.startLine) + st.processed == |ts|)
      && (!st.stopped && |ts| > 0 ==> st.lineNumber == |ts|)
  {
    RunInv(ts, p, |ts|);
  }

  /** The yields, the batch and the open paragraph after the whole file are the paragraphs of the lines processed. */
  lemma {:induction false} FinalAccounts(ts: seq<string>, p: Params)
    ensures var st := Final(ts, p);
      Chunks(st.emitted) + st.batch + Pending(st.chunk) == Paragraphs(ReadLines(ts, p))
  {
    RunInv(ts, p, |ts|);
    InvReadLines(ts, p, Final(ts, p));
  }

  /** The invariant after the whole file accounts for the lines read. */
  lemma {:induction false} InvReadLines(ts: seq<string>, p: Params, st: Scan)
    requires Inv(ts, p, |ts|, st)
    ensures Chunks(st.emitted) + st.batch + Pending(st.chunk) == Paragraphs(ReadLines(ts, p))
  {
    InvAccounts(ts, p, |ts|, st);
    ShapeReadLines(ts, p, st);
  }

  /** After the whole file, the lines the counters stand for are the lines read. */
  lemma {:induction false} ShapeReadLines(ts: seq<string>, p: Params, st: Scan)
    requires Shape(p, |ts|, st)
    ensures var s := Skipped(|ts|, p.startLine);
      s + st.processed <= |ts| && ReadLines(ts, p) == ts[s..s + st.processed]
  {
    assert st.processed == Processed(ts, p);
  }

  /**
   * What Finish adds to the yields of the loop: nothing, or one batch at the
   * last line, made of the pending batch and the open paragraph.
   */
  lemma {:induction false} FinishAdds(ts: seq<string>, p: Params)
    ensures var st, ys := Final(ts, p), Yields(ts, p);
      var last := st.batch + Pending(st.chunk);
      || ys == st.emitted
      || (&& !st.stopped && last != [] && st.processed < p.maxLines
          && ys == st.emitted + [Yield(last, |ts|)])
  {
    var st := Final(ts, p);
    FinalCounts(ts, p);
    FinalAccounts(ts, p);
  }

  /**
   * Nothing is dropped or duplicated: below the ceiling, the chunks of all
   * yielded batches, in order, are exactly the paragraphs of the lines from
   * the resume point on (rag.py:66-88).
   */
  lemma {:induction false} YieldsKeepParagraphs(ts: seq<string>, p: Params)
    requires |ts| - Skipped(|ts|, p.startLine) < Limit(p.maxLines)
    ensures Chunks(Yields(ts, p)) == Paragraphs(ts[Skipped(|ts|, p.startLine)..])
  {
    var st := Final(ts, p);
    var s := Skipped(|ts|, p.startLine);
    FinalCounts(ts, p);
    FinalAccounts(ts, p);
    assert ReadLines(ts, p) == ts[s..];
    FlushKeepsAll(p, st);
  }

  /** Below the ceiling, the final flush yields the pending batch and the open paragraph, if any. */
  lemma {:induction false} FlushKeepsAll(p: Params, st: Scan)
    requires !st.stopped && st.processed < p.maxLines
    ensures Chunks(Finish(p, st)) == Chunks(st.emitted) + st.batch + Pending(st.chunk)
  {
    var last := st.batch + Pending(st.chunk);
    if last == [] {
      assert Finish(p, st) == st.emitted;
      assert Chunks(st.emitted) + st.batch + Pending(st.chunk) == Chunks(st.emitted) + last;
    } else {
      assert Finish(p, st) == st.emitted + [Yield(last, st.lineNumber)];
      ChunksSnoc(st.emitted, Yield(last, st.lineNumber));
    }
  }

  /**
   * At any length the yielded chunks are a prefix of the paragraphs of the
   * lines processed; what is missing is the batch and paragraph still open
   * when MAX_LINES is reached, which rag.py:63-64 and rag.py:87 drop: at most
   * batch_size chunks.
   */
  lemma {:induction false} YieldsArePrefix(ts: seq<string>, p: Params)
    ensures var c, ps := Chunks(Yields(ts, p)), Paragraphs(ReadLines(ts, p));
      && |c| <= |ps| && ps[..|c|] == c
      && (p.batchSize >= 1 ==> |ps| - |c| <= p.batchSize)
  {
    var st := Final(ts, p);
    FinalAccounts(ts, p);
    FinishAdds(ts, p);
    RunCheckpoints(ts, p, |ts|);
    var last := st.batch + Pending(st.chunk);
    var ps := Paragraphs(ReadLines(ts, p));
    if Yields(ts, p) == st.emitted {
      assert ps == Chunks(st.emitted) + last;
      assert ps[..|Chunks(st.emitted)|] == Chunks(st.emitted);
    } else {
      ChunksSnoc(st.emitted, Yield(last, |ts|));
      assert ps[..|ps|] == ps;
    }
  }

  /** The chunks of batch i come out of Chunks(ys) in order. */
  lemma {:induction false} ChunksHas(ys: seq<Yield>, i: int, j: int)
    requires 0 <= i < |ys| && 0 <= j < |ys[i].batch|
    ensures ys[i].batch[j] in Chunks(ys)
    decreases |ys|
  {
    var init := ys[..|ys| - 1];
    if i < |ys| - 1 {
      assert ys[i] == init[i];
      ChunksHas(init, i, j);
    }
  }

  /**
   * Every chunk of every batch is non-empty and clean: it is the space-join of
   * at least one non-empty cleaned line (rag.py:68-74, rag.py:84-85).
   */
  lemma {:induction false} YieldsAreClean(ts: seq<string>, p: Params)
    requires forall i :: 0 <= i < |ts| ==> IsClean(ts[i])
    ensures var ys := Yields(ts, p);
      forall i, j :: 0 <= i < |ys| && 0 <= j < |ys[i].batch| ==>
        ys[i].batch[j] != "" && IsClean(ys[i].batch[j])
  {
    var s := Skipped(|ts|, p.startLine);
    var read := ReadLines(ts, p);
    assert forall i :: 0 <= i < |read| ==> read[i] == ts[s + i];
    ParagraphsAreClean(read);
    YieldsArePrefix(ts, p);
    PrefixChunksClean(Yields(ts, p), Paragraphs(read));
  }

  lemma {:induction false} PrefixChunksClean(ys: seq<Yield>, ps: seq<string>)
    requires forall m :: 0 <= m < |ps| ==> ps[m] != "" && IsClean(ps[m])
    requires |Chunks(ys)| <= |ps| && ps[..|Chunks(ys)|] == Chunks(ys)
    ensures forall i, j :: 0 <= i < |ys| && 0 <= j < |ys[i].batch| ==>
        ys[i].batch[j] != "" && IsClean(ys[i].batch[j])
  {
    var c := Chunks(ys);
    forall i, j | 0 <= i < |ys| && 0 <= j < |ys[i].batch|
      ensures ys[i].batch[j] != "" && IsClean(ys[i].batch[j])
    {
      ChunksHas(ys, i, j);
      var m :| 0 <= m < |c| && c[m] == ys[i].batch[j];
      assert c[m] == ps[m];
    }
  }

  /**
   * With batch_size >= 1, every batch the loop yields holds exactly
   * batch_size chunks and the final flush between 1 and batch_size, so no
   * batch is empty (rag.py:72-79, rag.py:87-88).
   */
  lemma {:induction false} YieldsBatchSizes(ts: seq<string>, p: Params)
    requires p.batchSize >= 1
    ensures var ys := Yields(ts, p);
      && (forall i :: 0 <= i < |ys| ==> 1 <= |ys[i].batch| <= p.batchSize)
      && (forall i :: 0 <= i < |ys| - 1 ==> |ys[i].batch| == p.batchSize)
  {
    var st := Final(ts, p);
    var ys := Yields(ts, p);
    FinishAdds(ts, p);
    RunCheckpoints(ts, p, |ts|);
    assert forall i :: 0 <= i < |st.emitted| ==> |st.emitted[i].batch| == p.batchSize;
    if ys != st.emitted {
      assert forall i :: 0 <= i < |st.emitted| ==> ys[i] == st.emitted[i];
    }
  }

  /** The yields of the loop are at processed lines, in strictly increasing order, and the last one closed everything. */
  lemma {:induction false} EmittedMarks(ts: seq<string>, p: Params)
    requires p.batchSize >= 1
    ensures var st, s := Final(ts, p), Skipped(|ts|, p.startLine);
      && (forall i :: 0 <= i < |st.emitted| ==> s < st.emitted[i].lineNumber <= s + st.processed)
      && (forall i, j :: 0 <= i < j < |st.emitted| ==> st.emitted[i].lineNumber < st.emitted[j].lineNumber)
      && (|st.emitted| > 0 && st.emitted[|st.emitted| - 1].lineNumber == s + st.processed ==>
            st.batch == [] && st.chunk == [])
  {
    RunMarks(ts, p, |ts|);
    RunCheckpoints(ts, p, |ts|);
  }

  /**
   * With batch_size >= 1, the yielded line numbers lie among the lines
   * processed (after the resume point, within MAX_LINES of it) and strictly
   * increase (rag.py:59-88).
   */
  lemma {:induction false} YieldsLineNumbers(ts: seq<string>, p: Params)
    requires p.batchSize >= 1
    ensures var ys, s := Yields(ts, p), Skipped(|ts|, p.startLine);
      && (forall i :: 0 <= i < |ys| ==> s < ys[i].lineNumber <= s + Processed(ts, p))
      && (forall i, j :: 0 <= i < j < |ys| ==> ys[i].lineNumber < ys[j].lineNumber)
  {
    var st := Final(ts, p);
    var ys := Yields(ts, p);
    FinishAdds(ts, p);
    EmittedMarks(ts, p);
    FinalCounts(ts, p);
    if ys != st.emitted {
      FlushIsLast(ts, p);
      assert forall i :: 0 <= i < |st.emitted| ==> ys[i] == st.emitted[i];
    }
  }

  /** A final flush comes after every yield of the loop, at the last line, which was processed. */
  lemma {:induction false} FlushIsLast(ts: seq<string>, p: Params)
    requires p.batchSize >= 1
    requires Yields(ts, p) != Final(ts, p).emitted
    ensures var st, s := Final(ts, p), Skipped(|ts|, p.startLine);
      && s < |ts| == s + st.processed
      && forall i :: 0 <= i < |st.emitted| ==> st.emitted[i].lineNumber < |ts|
  {
    var st := Final(ts, p);
    var m := |st.emitted|;
    FinishAdds(ts, p);
    EmittedMarks(ts, p);
    FinalCounts(ts, p);
    FinalAccounts(ts, p);
    if m > 0 {
      assert st.emitted[m - 1].lineNumber < |ts|;
    }
  }

  /** A yield of the loop is a checkpoint at a blank line. */
  lemma {:induction false} EmittedCheckpoint(ts: seq<string>, p: Params, i: int)
    requires p.batchSize >= 1
    requires 0 <= i < |Final(ts, p).emitted|
    ensures var ys, s := Final(ts, p).emitted, Skipped(|ts|, p.startLine);
      var n := ys[i].lineNumber;
      && s < n <= |ts| && ts[n - 1] == ""
      && Chunks(ys[..i + 1]) == Paragraphs(ts[s..n])
  {
    var ys := Final(ts, p).emitted;
    var s := Skipped(|ts|, p.startLine);
    RunCheckpoints(ts, p, |ts|);
    assert CheckpointAt(ts, s, ys, i);
    var n := ys[i].lineNumber;
    SegIsSlice(ts, s, n);
  }

  /**
   * With batch_size >= 1, every yield is a checkpoint: the batches up to it
   * are exactly the paragraphs of the lines from the resume point to its line,
   * and its line is blank, except for a final flush at the last line of the file.
   */
  lemma {:induction false} YieldsCheckpoints(ts: seq<string>, p: Params)
    requires p.batchSize >= 1
    ensures var ys, s := Yields(ts, p), Skipped(|ts|, p.startLine);
      forall i :: 0 <= i < |ys| ==>
        && s < ys[i].lineNumber <= |ts|
        && Chunks(ys[..i + 1]) == Paragraphs(ts[s..ys[i].lineNumber])
        && (ts[ys[i].lineNumber - 1] == "" || (i == |ys| - 1 && ys[i].lineNumber == |ts|))
  {
    var ys, s := Yields(ts, p), Skipped(|ts|, p.startLine);
    forall i | 0 <= i < |ys|
      ensures s < ys[i].lineNumber <= |ts|
      ensures Chunks(ys[..i + 1]) == Paragraphs(ts[s..ys[i].lineNumber])
      ensures ts[ys[i].lineNumber - 1] == "" || (i == |ys| - 1 && ys[i].lineNumber == |ts|)
    {
      YieldCheckpoint(ts, p, i);
    }
  }

  /** The i-th yield is a checkpoint. */
  lemma {:induction false} YieldCheckpoint(ts: seq<string>, p: Params, i: int)
    requires p.batchSize >= 1 && 0 <= i < |Yields(ts, p)|
    ensures var ys, s := Yields(ts, p), Skipped(|ts|, p.startLine);
      && s < ys[i].lineNumber <= |ts|
      && Chunks(ys[..i + 1]) == Paragraphs(ts[s..ys[i].lineNumber])
      && (ts[ys[i].lineNumber - 1] == "" || (i == |ys| - 1 && ys[i].lineNumber == |ts|))
  {
    var st := Final(ts, p);
    var ys := Yields(ts, p);
    FinishAdds(ts, p);
    if i < |st.emitted| {
      assert ys[..|st.emitted|] == st.emitted;
      PrefixAgrees(st.emitted, ys, i);
      EmittedCheckpoint(ts, p, i);
    } else {
      FlushCheckpoint(ts, p);
      assert ys[..i + 1] == ys;
    }
  }

  lemma {:induction false} PrefixAgrees(a: seq<Yield>, b: seq<Yield>, i: int)
    requires |a| <= |b| && b[..|a|] == a && 0 <= i < |a|
    ensures b[i] == a[i] && b[..i + 1] == a[..i + 1]
  {
    assert b[i] == b[..|a|][i];
  }

  /** A final flush is a checkpoint at the last line: everything yielded is the paragraphs of the lines processed. */
  lemma {:induction false} FlushCheckpoint(ts: seq<string>, p: Params)
    requires p.batchSize >= 1
    requires Yields(ts, p) != Final(ts, p).emitted
    ensures var ys, s := Yields(ts, p), Skipped(|ts|, p.startLine);
      && |ys| == |Final(ts, p).emitted| + 1 && s < ys[|ys| - 1].lineNumber == |ts|
      && Chunks(ys) == Paragraphs(ts[s..|ts|])
  {
    var st := Final(ts, p);
    var ys := Yields(ts, p);
    FinishAdds(ts, p);
    FlushIsLast(ts, p);
    FinalAccounts(ts, p);
    ChunksSnoc(st.emitted, ys[|ys| - 1]);
  }

  /** The locals with every line number moved down by d lines. */
  function ShiftScan(st: Scan, d: int): Scan {
    Scan(st.lineNumber + d, st.processed, st.chunk, st.batch, Shift(st.emitted, d), st.stopped)
  }

  lemma {:induction false} ShiftSnoc(ys: seq<Yield>, y: Yield, d: int)
    ensures Shift(ys + [y], d) == Shift(ys, d) + [Yield(y.batch, y.lineNumber + d)]
  {
    assert (ys + [y])[..|ys|] == ys;
  }

  /** Before start_line nothing happens but the line number advancing (rag.py:56, rag.py:60-61). */
  lemma {:induction false} RunBeforeStart(ts: seq<string>, p: Params, k: nat)
    requires k <= |ts| && (k == 0 || k < p.startLine)
    ensures Run(ts, p, k) == Scan(if k == 0 then p.startLine else k, 0, [], [], [], false)
  {
    if k > 0 {
      RunBeforeStart(ts, p, k - 1);
    }
  }

  /** A pass over line n + d of the file is the pass over line n of the file with its first d lines cut off. */
  lemma {:induction false} StepShift(p: Params, st: Scan, n: int, d: int, text: string)
    requires n >= 1 && n + d >= p.startLine
    ensures Step(p, ShiftScan(st, d), n + d, text) == ShiftScan(Step(p.(startLine := 0), st, n, text), d)
  {
    if !st.stopped && st.processed < p.maxLines {
      assert Process(p.(startLine := 0), st, n, text) == Process(p, st, n, text);
      ProcessShift(p, st, n, d, text);
    }
  }

  lemma {:induction false} ProcessShift(p: Params, st: Scan, n: int, d: int, text: string)
    ensures Process(p, ShiftScan(st, d), n + d, text) == ShiftScan(Process(p, st, n, text), d)
  {
    var batch := Absorbed(st, text);
    if |batch| >= p.batchSize || st.processed >= p.maxLines {
      ShiftSnoc(st.emitted, Yield(batch, n), d);
    }
  }

  /** The loop over the whole file, once past the skipped lines, runs as the loop over the rest of it. */
  lemma {:induction false} RunShift(ts: seq<string>, p: Params, d: nat, j: nat)
    requires d == Skipped(|ts|, p.startLine)
    requires 1 <= j <= |ts| - d
    ensures Run(ts, p, d + j) == ShiftScan(Run(ts[d..], p.(startLine := 0), j), d)
    decreases j
  {
    if j == 1 {
      RunShiftFirst(ts, p, d);
    } else {
      RunShift(ts, p, d, j - 1);
      RunShiftNext(ts, p, d, j);
    }
  }

  /** The first line after the skipped ones. */
  lemma {:induction false} RunShiftFirst(ts: seq<string>, p: Params, d: nat)
    requires d == Skipped(|ts|, p.startLine) && d < |ts|
    ensures Run(ts, p, d + 1) == ShiftScan(Run(ts[d..], p.(startLine := 0), 1), d)
  {
    var q := p.(startLine := 0);
    assert ts[d..][0] == ts[d];
    RunBeforeStart(ts, p, d);
    StepShift(p, Start(q), 1, d, ts[d]);
    assert Step(p, Run(ts, p, d), d + 1, ts[d]) == Step(p, ShiftScan(Start(q), d), 1 + d, ts[d]);
  }

  /** Any later line. */
  lemma {:induction false} RunShiftNext(ts: seq<string>, p: Params, d: nat, j: nat)
    requires d == Skipped(|ts|, p.startLine)
    requires 2 <= j <= |ts| - d
    requires Run(ts, p, d + j - 1) == ShiftScan(Run(ts[d..], p.(startLine := 0), j - 1), d)
    ensures Run(ts, p, d + j) == ShiftScan(Run(ts[d..], p.(startLine := 0), j), d)
  {
    var q := p.(startLine := 0);
    var rest := ts[d..];
    assert rest[j - 1] == ts[d + j - 1];
    StepShift(p, Run(rest, q, j - 1), j, d, rest[j - 1]);
  }

  lemma {:induction false} FinishShift(p: Params, st: Scan, d: int)
    ensures Finish(p, ShiftScan(st, d)) == Shift(Finish(p, st), d)
  {
    var shifted := ShiftScan(st, d);
    var batch := st.batch + Pending(st.chunk);
    assert shifted.batch + Pending(shifted.chunk) == batch;
    if !st.stopped && batch != [] && st.processed < p.maxLines {
      assert Finish(p, st) == st.emitted + [Yield(batch, st.lineNumber)];
      assert Finish(p, shifted) == Shift(st.emitted, d) + [Yield(batch, st.lineNumber + d)];
      ShiftSnoc(st.emitted, Yield(batch, st.lineNumber), d);
    } else {
      assert Finish(p, st) == st.emitted;
      assert Finish(p, shifted) == Shift(st.emitted, d);
    }
  }

  /**
   * Resumption depends only on the lines from start_line on: a call with
   * start_line yields what a fresh call on the file cut just before line
   * start_line yields, with the line numbers moved back by the lines cut
   * (rag.py:59-61). Line start_line itself is read again.
   */
  lemma {:induction false} YieldsShift(ts: seq<string>, p: Params)
    ensures var d := Skipped(|ts|, p.startLine);
      Yields(ts, p) == Shift(Yields(ts[d..], p.(startLine := 0)), d)
  {
    var d := Skipped(|ts|, p.startLine);
    var q := p.(startLine := 0);
    if d == |ts| {
      RunBeforeStart(ts, p, d);
      assert ts[d..] == [];
    } else {
      RunShift(ts, p, d, |ts| - d);
      var st := Run(ts[d..], q, |ts| - d);
      FinishShift(p, st, d);
      assert Finish(q, st) == Finish(p, st);
    }
  }

  /**
   * Resuming at a checkpoint loses and repeats nothing: the batches up to a
   * yield at a blank line, followed by everything a new call started at that
   * line number yields, are the paragraphs of the whole input
   * (rag.py:51-88, rag.py:142-153).
   */
  lemma {:induction false} ResumeAtCheckpoint(ts: seq<string>, p: Params, i: int)
    requires p.batchSize >= 1
    requires 0 <= i < |Yields(ts, p)|
    requires 0 < Yields(ts, p)[i].lineNumber <= |ts| && ts[Yields(ts, p)[i].lineNumber - 1] == ""
    requires |ts| - (Yields(ts, p)[i].lineNumber - 1) < Limit(p.maxLines)
    ensures var ys, n := Yields(ts, p), Yields(ts, p)[i].lineNumber;
      Chunks(ys[..i + 1]) + Chunks(Yields(ts, p.(startLine := n)))
        == Paragraphs(ts[Skipped(|ts|, p.startLine)..])
  {
    var ys := Yields(ts, p);
    var s := Skipped(|ts|, p.startLine);
    var n := ys[i].lineNumber;
    var r := p.(startLine := n);
    YieldsCheckpoints(ts, p);
    assert Chunks(ys[..i + 1]) == Paragraphs(ts[s..n]);
    assert Skipped(|ts|, n) == n - 1;
    YieldsKeepParagraphs(ts, r);
    ParagraphsAfterBlank(ts, s, n);
  }

  /**
   * With batch_size >= 1, the batches up to any yield, even past the
   * MAX_LINES ceiling, are the first paragraphs of all the lines from the
   * resume point on: a yield never cuts a paragraph.
   */
  lemma {:induction false} YieldsStartParagraphs(ts: seq<string>, p: Params, j: int)
    requires p.batchSize >= 1 && 0 <= j < |Yields(ts, p)|
    ensures var c, ps := Chunks(Yields(ts, p)[..j + 1]), Paragraphs(ts[Skipped(|ts|, p.startLine)..]);
      |c| <= |ps| && ps[..|c|] == c
  {
    var ys, s := Yields(ts, p), Skipped(|ts|, p.startLine);
    var n := ys[j].lineNumber;
    YieldCheckpoint(ts, p, j);
    var c := Chunks(ys[..j + 1]);
    if ts[n - 1] == "" {
      ParagraphsAfterBlank(ts, s, n);
      assert (c + Paragraphs(ts[n - 1..]))[..|c|] == c;
    } else {
      assert ts[s..n] == ts[s..];
      assert c[..|c|] == c;
    }
  }

  /** Splitting the lines after a blank one, which may be read again, splits their paragraphs. */
  lemma {:induction false} ParagraphsAfterBlank(ts: seq<string>, s: nat, n: nat)
    requires s < n <= |ts| && ts[n - 1] == ""
    ensures Paragraphs(ts[s..]) == Paragraphs(ts[s..n]) + Paragraphs(ts[n - 1..])
  {
    var a, b := ts[s..n], ts[n..];
    assert ts[n - 1..] == [""] + b;
    assert ts[s..] == a + b;
    ParagraphsBlankFront(b);
    ParagraphsConcat(a, b);
  }

  /** A blank first line adds no paragraph. */
  lemma {:induction false} ParagraphsBlankFront(b: seq<string>)
    ensures Paragraphs([""] + b) == Paragraphs(b)
  {
    ParagraphsConcat([""], b);
    assert [""][..0] == [];
  }

  /**
   * A call resumed at the line of a final flush that ended on a non-blank
   * last line reads that line again and yields it once more as a chunk of
   * its own (rag.py:56-61, rag.py:84-88).
   */
  lemma {:induction false} ResumeRereadsCursorLine(ts: seq<string>, batchSize: int, maxLines: int)
    requires |ts| >= 1 && ts[|ts| - 1] != ""
    requires batchSize >= 1 && maxLines >= 2
    ensures Yields(ts, Params(batchSize, |ts|, maxLines)) == [Yield([ts[|ts| - 1]], |ts|)]
  {
    var p := Params(batchSize, |ts|, maxLines);
    var k := |ts| - 1;
    RunBeforeStart(ts, p, k);
    var before := Run(ts, p, k);
    assert before == Scan(if k == 0 then p.startLine else k, 0, [], [], [], false);
    var t := ts[k];
    assert Run(ts, p, |ts|) == Process(p, before, |ts|, t);
    assert Process(p, before, |ts|, t) == Scan(|ts|, 1, [t], [], [], false);
    assert JoinChunk([t]) == t;
  }

  /**
   * The theorems above, for the raw lines of the file: below the ceiling the
   * yielded chunks are the paragraphs of the cleaned lines from the resume
   * point on.
   */
  lemma {:induction false} GenerateKeepsParagraphs(lines: seq<string>, p: Params)
    requires |lines| - Skipped(|lines|, p.startLine) < Limit(p.maxLines)
    ensures var s := Skipped(|lines|, p.startLine);
      Chunks(Generate(lines, p)) == Paragraphs(CleanAll(lines[s..]))
  {
    var ts := CleanAll(lines);
    var s := Skipped(|lines|, p.startLine);
    YieldsKeepParagraphs(ts, p);
    CleanSuffix(lines, s);
  }

  /** Cleaning the lines from s on is taking the cleaned lines from s on. */
  lemma {:induction false} CleanSuffix(lines: seq<string>, s: nat)
    requires s <= |lines|
    ensures CleanAll(lines)[s..] == CleanAll(lines[s..])
  {
    CleanAllSlice(lines, s, |lines|);
    assert lines[s..|lines|] == lines[s..];
  }

  /** Every chunk parse_book_text yields for a file is non-empty and clean. */
  lemma {:induction false} GenerateChunksAreClean(lines: seq<string>, p: Params)
    ensures var ys := Generate(lines, p);
      forall i, j :: 0 <= i < |ys| && 0 <= j < |ys[i].batch| ==>
        ys[i].batch[j] != "" && IsClean(ys[i].batch[j])
  {
    CleanAllIsClean(lines);
    YieldsAreClean(CleanAll(lines), p);
  }

  /**
   * A call with start_line yields what a fresh call on the file without the
   * lines before start_line yields, line numbers moved back by the lines cut.
   */
  lemma {:induction false} GenerateResumes(lines: seq<string>, p: Params)
    ensures var d := Skipped(|lines|, p.startLine);
      Generate(lines, p) == Shift(Generate(lines[d..], p.(startLine := 0)), d)
  {
    var ts := CleanAll(lines);
    var d := Skipped(|lines|, p.startLine);
    YieldsShift(ts, p);
    CleanSuffix(lines, d);
  }

  /** Resuming a file at a checkpoint loses and repeats no paragraph of its cleaned lines. */
  lemma {:induction false} GenerateResumeAtCheckpoint(lines: seq<string>, p: Params, i: int)
    requires p.batchSize >= 1
    requires 0 <= i < |Generate(lines, p)|
    requires var n := Generate(lines, p)[i].lineNumber; 0 < n <= |lines| && CleanLine(lines[n - 1]) == ""
    requires |lines| - (Generate(lines, p)[i].lineNumber - 1) < Limit(p.maxLines)
    ensures var ys, n := Generate(lines, p), Generate(lines, p)[i].lineNumber;
      Chunks(ys[..i + 1]) + Chunks(Generate(lines, p.(startLine := n)))
        == Paragraphs(CleanAll(lines[Skipped(|lines|, p.startLine)..]))
  {
    var ts := CleanAll(lines);
    var n := Generate(lines, p)[i].lineNumber;
    CleanAllAt(lines, n - 1);
    ResumeAtCheckpoint(ts, p, i);
    CleanSuffix(lines, Skipped(|lines|, p.startLine));
  }

  /** YieldsStartParagraphs for the raw lines of the file. */
  lemma {:induction false} GenerateStartsParagraphs(lines: seq<string>, p: Params, j: int)
    requires p.batchSize >= 1 && 0 <= j < |Generate(lines, p)|
    ensures var c, ps := Chunks(Generate(lines, p)[..j + 1]), Paragraphs(CleanAll(lines[Skipped(|lines|, p.startLine)..]));
      |c| <= |ps| && ps[..|c|] == c
  {
    YieldsStartParagraphs(CleanAll(lines), p, j);
    CleanSuffix(lines, Skipped(|lines|, p.startLine));
  }

  /** Every yield of a call is at a line after its resume point, within the file. */
  lemma {:induction false} GenerateLineNumber(lines: seq<string>, p: Params, j: int)
    requires p.batchSize >= 1 && 0 <= j < |Generate(lines, p)|
    ensures Skipped(|lines|, p.startLine) < Generate(lines, p)[j].lineNumber <= |lines|
  {
    YieldCheckpoint(CleanAll(lines), p, j);
  }

  /** A call that returned at the MAX_LINES ceiling yielded only at lines that clean to blank (rag.py:63-79). */
  lemma {:induction false} GenerateStoppedAtBlank(lines: seq<string>, p: Params, i: int)
    requires p.batchSize >= 1 && Final(CleanAll(lines), p).stopped
    requires 0 <= i < |Generate(lines, p)|
    ensures var n := Generate(lines, p)[i].lineNumber;
      0 < n <= |lines| && CleanLine(lines[n - 1]) == ""
  {
    var ts := CleanAll(lines);
    YieldsStoppedAtBlank(ts, p, i);
    CleanAllAt(lines, Yields(ts, p)[i].lineNumber - 1);
  }

  lemma {:induction false} YieldsStoppedAtBlank(ts: seq<string>, p: Params, i: int)
    requires p.batchSize >= 1 && Final(ts, p).stopped
    requires 0 <= i < |Yields(ts, p)|
    ensures var n := Yields(ts, p)[i].lineNumber;
      0 < n <= |ts| && ts[n - 1] == ""
  {
    assert Yields(ts, p) == Final(ts, p).emitted;
    EmittedCheckpoint(ts, p, i);
  }

  /** Every yield before the last one of a call is at a blank line of the file. */
  lemma {:induction false} GenerateEarlierAtBlank(lines: seq<string>, p: Params, j: int)
    requires p.batchSize >= 1 && 0 <= j < |Generate(lines, p)| - 1
    ensures var n := Generate(lines, p)[j].lineNumber;
      Skipped(|lines|, p.startLine) < n <= |lines| && CleanLine(lines[n - 1]) == ""
  {
    var ts := CleanAll(lines);
    YieldsEarlierAtBlank(ts, p, j);
    CleanAllAt(lines, Yields(ts, p)[j].lineNumber - 1);
  }

  /** Every yield before the last one of a call is at a blank line. */
  lemma {:induction false} YieldsEarlierAtBlank(ts: seq<string>, p: Params, j: int)
    requires p.batchSize >= 1 && 0 <= j < |Yields(ts, p)| - 1
    ensures var n := Yields(ts, p)[j].lineNumber;
      Skipped(|ts|, p.startLine) < n <= |ts| && ts[n - 1] == ""
  {
    YieldCheckpoint(ts, p, j);
  }
}
