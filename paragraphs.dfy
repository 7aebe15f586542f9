/**
 * The reference meaning of the chunker (rag.py:51-88): the paragraphs of a
 * sequence of cleaned lines are its maximal runs of non-blank lines, each
 * joined with single spaces, in order.
 */
module Paragraphing {
  import opened Text

  /** What parse_book_text does to one raw line (rag.py:66): clean_text(line.strip()). */
  function CleanLine(line: string): string {
    CleanText(Strip(line))
  }

  /** Every cleaned line is clean. */
  lemma {:induction false} CleanLineIsClean(line: string)
    ensures IsClean(CleanLine(line))
  {
    CleanTextIsClean(Strip(line));
  }

  /** A line that is already clean is left as it is. */
  lemma {:induction false} CleanLineFixesClean(line: string)
    requires IsClean(line)
    ensures CleanLine(line) == line
  {
    StripFixesTrimmed(line);
    CleanTextFixesClean(line);
  }

  /** Every line cleaned, in order. */
  function CleanAll(lines: seq<string>): (r: seq<string>)
    ensures |r| == |lines|
  {
    seq(|lines|, i requires 0 <= i < |lines| => CleanLine(lines[i]))
  }

  /** Line i + 1 of the file, cleaned. */
  lemma {:induction false} CleanAllAt(lines: seq<string>, i: nat)
    requires i < |lines|
    ensures CleanAll(lines)[i] == CleanLine(lines[i])
  {
  }

  /** Every cleaned line is clean. */
  lemma {:induction false} CleanAllIsClean(lines: seq<string>)
    ensures forall i :: 0 <= i < |lines| ==> IsClean(CleanAll(lines)[i])
  {
    forall i | 0 <= i < |lines| ensures IsClean(CleanAll(lines)[i]) {
      CleanAllAt(lines, i);
      CleanLineIsClean(lines[i]);
    }
  }

  /** Cleaning works line by line: cleaning a slice is slicing the cleaned lines. */
  lemma {:induction false} CleanAllSlice(lines: seq<string>, a: nat, b: nat)
    requires a <= b <= |lines|
    ensures CleanAll(lines)[a..b] == CleanAll(lines[a..b])
  {
    var all, part := CleanAll(lines), lines[a..b];
    var l, r := all[a..b], CleanAll(part);
    forall i | 0 <= i < |l| ensures l[i] == r[i] {
      CleanAllAt(lines, a + i);
      CleanAllAt(part, i);
      assert part[i] == lines[a + i];
    }
    assert l == r;
  }

  /** Cleaning two pieces of a file one after the other is cleaning the whole. */
  lemma {:induction false} CleanAllConcat(a: seq<string>, b: seq<string>)
    ensures CleanAll(a + b) == CleanAll(a) + CleanAll(b)
  {
    var ab := a + b;
    var l, ca, cb := CleanAll(ab), CleanAll(a), CleanAll(b);
    forall i | 0 <= i < |l| ensures l[i] == (ca + cb)[i] {
      CleanAllAt(ab, i);
      if i < |a| {
        CleanAllAt(a, i);
        assert ab[i] == a[i];
      } else {
        CleanAllAt(b, i - |a|);
        assert ab[i] == b[i - |a|];
      }
    }
    assert l == ca + cb;
  }

  /** " ".join(chunk) (rag.py:73, rag.py:85). */
  function JoinChunk(chunk: seq<string>): string {
    JoinWith(" ", chunk)
  }

  /** Every line of run is non-blank. */
  predicate NonBlank(run: seq<string>) {
    forall i :: 0 <= i < |run| ==> run[i] != ""
  }

  /** The non-blank lines at the end of ls: the paragraph still open after reading ls. */
  function TrailingRun(ls: seq<string>): (run: seq<string>)
    ensures |run| <= |ls|
    ensures |run| < |ls| ==> ls[|ls| - |run| - 1] == ""
    decreases |ls|
  {
    if ls == [] || ls[|ls| - 1] == "" then []
    else
      TrailingRun(ls[..|ls| - 1]) + [ls[|ls| - 1]]
  }

  /** The open paragraph holds no blank line. */
  lemma {:induction false} TrailingRunNonBlank(ls: seq<string>)
    ensures NonBlank(TrailingRun(ls))
    decreases |ls|
  {
    if ls != [] && ls[|ls| - 1] != "" {
      var init := ls[..|ls| - 1];
      TrailingRunNonBlank(init);
      var run := TrailingRun(init);
      var ext := run + [ls[|ls| - 1]];
      forall i | 0 <= i < |ext| ensures ext[i] != "" {
        if i < |run| {
          assert ext[i] == run[i];
        }
      }
    }
  }

  /** The trailing run is a suffix of ls. */
  lemma {:induction false} TrailingRunIsSuffix(ls: seq<string>)
    ensures var run := TrailingRun(ls); ls == ls[..|ls| - |run|] + run
    decreases |ls|
  {
    if ls != [] && ls[|ls| - 1] != "" {
      var init := ls[..|ls| - 1];
      TrailingRunIsSuffix(init);
      var m := |init| - |TrailingRun(init)|;
      assert ls[..m] == init[..m];
    }
  }

  /**
   * The paragraphs of ls: every maximal run of non-blank lines, joined, in
   * order. Read from the end: a blank last line ends no paragraph, and a
   * non-blank one ends the paragraph made of the trailing run.
   */
  function Paragraphs(ls: seq<string>): seq<string>
    decreases |ls|
  {
    if ls == [] then []
    else if ls[|ls| - 1] == "" then Paragraphs(ls[..|ls| - 1])
    else
      var run := TrailingRun(ls);
      Paragraphs(ls[..|ls| - |run|]) + [JoinChunk(run)]
  }

  /** The open paragraph, as the list of at most one chunk it will become. */
  function Pending(chunk: seq<string>): seq<string> {
    if chunk == [] then [] else [JoinChunk(chunk)]
  }

  /** The paragraphs of ls are the closed ones followed by the still open trailing run. */
  lemma {:induction false} ParagraphsSplitAtRun(ls: seq<string>)
    ensures var run := TrailingRun(ls);
      Paragraphs(ls) == Paragraphs(ls[..|ls| - |run|]) + Pending(run)
  {
    var run := TrailingRun(ls);
    if run == [] {
      assert ls[..|ls|] == ls;
    } else {
      assert ls[|ls| - 1] == run[|run| - 1];
    }
  }

  lemma {:induction false} TrailingRunSnoc(ls: seq<string>, line: string)
    ensures line == "" ==> TrailingRun(ls + [line]) == []
    ensures line != "" ==> TrailingRun(ls + [line]) == TrailingRun(ls) + [line]
  {
    var ext := ls + [line];
    assert ext[..|ext| - 1] == ls;
  }

  /**
   * A non-blank line extends the open paragraph; this is the step the
   * generator's loop takes at rag.py:68-69.
   */
  lemma {:induction false} ParagraphsSnocLine(ls: seq<string>, line: string)
    requires line != ""
    ensures var run := TrailingRun(ls);
      Paragraphs(ls + [line]) == Paragraphs(ls[..|ls| - |run|]) + Pending(run + [line])
  {
    var run := TrailingRun(ls);
    var ext := ls + [line];
    TrailingRunSnoc(ls, line);
    assert ext[..|ext| - |run + [line]|] == ls[..|ls| - |run|];
  }

  /**
   * A blank line closes the open paragraph; this is the step the generator's
   * loop takes at rag.py:70-74.
   */
  lemma {:induction false} ParagraphsSnocBlank(ls: seq<string>, line: string)
    requires line == ""
    ensures var run := TrailingRun(ls);
      Paragraphs(ls + [line]) == Paragraphs(ls[..|ls| - |run|]) + Pending(run)
  {
    var ext := ls + [line];
    assert ext[..|ext| - 1] == ls;
    ParagraphsSplitAtRun(ls);
  }

  /** After a blank line, the trailing run of what follows is all there is. */
  lemma {:induction false} TrailingRunConcat(a: seq<string>, b: seq<string>)
    requires a == [] || a[|a| - 1] == ""
    ensures TrailingRun(a + b) == TrailingRun(b)
    decreases |b|
  {
    var ab := a + b;
    if b == [] {
      assert ab == a;
    } else {
      assert ab[|ab| - 1] == b[|b| - 1];
      if b[|b| - 1] != "" {
        assert ab[..|ab| - 1] == a + b[..|b| - 1];
        TrailingRunConcat(a, b[..|b| - 1]);
      }
    }
  }

  /** Paragraphs never straddle a blank line: splitting after one splits the paragraphs. */
  lemma {:induction false} ParagraphsConcat(a: seq<string>, b: seq<string>)
    requires a == [] || a[|a| - 1] == ""
    ensures Paragraphs(a + b) == Paragraphs(a) + Paragraphs(b)
    decreases |b|
  {
    var ab := a + b;
    if b == [] {
      assert ab == a;
    } else if b[|b| - 1] == "" {
      var k := |b| - 1;
      var front := b[..k];
      assert ab[|ab| - 1] == "";
      TakeOfConcat(a, b, k);
      assert ab[..|ab| - 1] == a + front;
      ParagraphsConcat(a, front);
      ParagraphsAtBlank(ab);
      ParagraphsAtBlank(b);
      assert Paragraphs(ab) == Paragraphs(a + front);
    } else {
      var run := TrailingRun(b);
      var front := b[..|b| - |run|];
      ParagraphsConcat(a, front);
      ParagraphsConcatLine(a, b, front, run);
    }
  }

  /** The step of ParagraphsConcat for a non-blank last line. */
  lemma {:induction false} ParagraphsConcatLine(a: seq<string>, b: seq<string>, front: seq<string>, run: seq<string>)
    requires a == [] || a[|a| - 1] == ""
    requires b != [] && b[|b| - 1] != ""
    requires run == TrailingRun(b) && front == b[..|b| - |run|]
    requires Paragraphs(a + front) == Paragraphs(a) + Paragraphs(front)
    ensures Paragraphs(a + b) == Paragraphs(a) + Paragraphs(b)
  {
    LastOfConcat(a, b);
    TrailingRunConcat(a, b);
    TakeOfConcat(a, b, |front|);
    ParagraphsAtLine(a + b, run, a + front);
    ParagraphsAtLine(b, run, front);
    ConcatAssoc(Paragraphs(a), Paragraphs(front), [JoinChunk(run)]);
  }

  /** A blank last line adds no paragraph. */
  lemma {:induction false} ParagraphsAtBlank(ls: seq<string>)
    requires ls != [] && ls[|ls| - 1] == ""
    ensures Paragraphs(ls) == Paragraphs(ls[..|ls| - 1])
  {
  }

  /** A non-blank last line closes the trailing run into the last paragraph. */
  lemma {:induction false} ParagraphsAtLine(ls: seq<string>, run: seq<string>, closed: seq<string>)
    requires ls != [] && ls[|ls| - 1] != ""
    requires run == TrailingRun(ls) && closed == ls[..|ls| - |run|]
    ensures Paragraphs(ls) == Paragraphs(closed) + [JoinChunk(run)]
  {
  }

  lemma {:induction false} LastOfConcat(a: seq<string>, b: seq<string>)
    requires b != []
    ensures (a + b)[|a + b| - 1] == b[|b| - 1]
  {
  }

  lemma {:induction false} ConcatAssoc(x: seq<string>, y: seq<string>, z: seq<string>)
    ensures (x + y) + z == x + (y + z)
  {
  }

  lemma {:induction false} TakeOfConcat(a: seq<string>, b: seq<string>, k: nat)
    requires k <= |b|
    ensures (a + b)[..|a| + k] == a + b[..k]
  {
  }

  /** A run of non-blank lines is its own trailing run. */
  lemma {:induction false} TrailingRunOfRun(run: seq<string>)
    requires NonBlank(run)
    ensures TrailingRun(run) == run
    decreases |run|
  {
    if run != [] {
      var init := run[..|run| - 1];
      assert NonBlank(init) by {
        assert forall i :: 0 <= i < |init| ==> init[i] == run[i];
      }
      TrailingRunOfRun(init);
      assert run == init + [run[|run| - 1]];
    }
  }

  /** A run of non-blank lines is one paragraph, and blank lines make none. */
  lemma {:induction false} ParagraphsOfRun(run: seq<string>)
    requires NonBlank(run)
    ensures Paragraphs(run) == Pending(run)
  {
    if run != [] {
      TrailingRunOfRun(run);
      assert run[..0] == [];
    }
  }

  /** Joining clean, non-empty lines gives a clean, non-empty chunk. */
  lemma {:induction false} JoinChunkClean(ws: seq<string>)
    requires |ws| > 0
    requires forall i :: 0 <= i < |ws| ==> ws[i] != "" && IsClean(ws[i])
    ensures JoinChunk(ws) != "" && IsClean(JoinChunk(ws))
    decreases |ws|
  {
    if |ws| > 1 {
      var init := ws[..|ws| - 1];
      var last := ws[|ws| - 1];
      JoinChunkClean(init);
      var front := JoinChunk(init);
      var r := front + " " + last;
      assert JoinChunk(ws) == r;
      assert r[0] == front[0];
      assert r[|r| - 1] == last[|last| - 1];
      forall i | 0 <= i < |r| ensures !IsFormat(r[i]) {
        if i < |front| {
          assert r[i] == front[i];
        } else if i == |front| {
          assert r[i] == ' ';
        } else {
          assert r[i] == last[i - |front| - 1];
        }
      }
    }
  }

  /** Every paragraph of a sequence of clean lines is a non-empty clean string. */
  lemma {:induction false} ParagraphsAreClean(ls: seq<string>)
    requires forall i :: 0 <= i < |ls| ==> IsClean(ls[i])
    ensures forall j :: 0 <= j < |Paragraphs(ls)| ==> Paragraphs(ls)[j] != "" && IsClean(Paragraphs(ls)[j])
    decreases |ls|
  {
    if ls != [] {
      if ls[|ls| - 1] == "" {
        ParagraphsAtBlank(ls);
        PrefixClean(ls, |ls| - 1);
        ParagraphsAreClean(ls[..|ls| - 1]);
      } else {
        var run := TrailingRun(ls);
        var closed := ls[..|ls| - |run|];
        PrefixClean(ls, |closed|);
        ParagraphsAreClean(closed);
        OpenParagraphClean(ls);
        ParagraphsAtLine(ls, run, closed);
        var ps, c := Paragraphs(closed), JoinChunk(run);
        var all := ps + [c];
        forall j | 0 <= j < |all| ensures all[j] != "" && IsClean(all[j]) {
          if j < |ps| {
            assert all[j] == ps[j];
          }
        }
      }
    }
  }

  /** The lines before the m-th of clean lines are clean. */
  lemma {:induction false} PrefixClean(ls: seq<string>, m: nat)
    requires m <= |ls|
    requires forall i :: 0 <= i < |ls| ==> IsClean(ls[i])
    ensures forall i :: 0 <= i < m ==> IsClean(ls[..m][i])
  {
    forall i | 0 <= i < m ensures IsClean(ls[..m][i]) {
      assert ls[..m][i] == ls[i];
    }
  }

  /** The open paragraph of clean lines ending in a non-blank one joins into a clean, non-empty chunk. */
  lemma {:induction false} OpenParagraphClean(ls: seq<string>)
    requires ls != [] && ls[|ls| - 1] != ""
    requires forall i :: 0 <= i < |ls| ==> IsClean(ls[i])
    ensures JoinChunk(TrailingRun(ls)) != "" && IsClean(JoinChunk(TrailingRun(ls)))
  {
    var run := TrailingRun(ls);
    var m := |ls| - |run|;
    TrailingRunIsSuffix(ls);
    assert run == ls[m..];
    SuffixClean(ls, m);
    TrailingRunNonBlank(ls);
    JoinChunkClean(run);
  }

  /** The lines from the m-th on of clean lines are clean. */
  lemma {:induction false} SuffixClean(ls: seq<string>, m: nat)
    requires m <= |ls|
    requires forall i :: 0 <= i < |ls| ==> IsClean(ls[i])
    ensures forall i :: 0 <= i < |ls| - m ==> IsClean(ls[m..][i])
  {
    forall i | 0 <= i < |ls| - m ensures IsClean(ls[m..][i]) {
      assert ls[m..][i] == ls[m + i];
    }
  }
}
