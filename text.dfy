/**
 * Character classes, Python's str.strip, the Unicode "format" filter of
 * clean_text (rag.py:46-48), and str.join / str.split on a separator.
 */
module Text {

  /** unicodedata.category(c) == "Cf": general category "other, format", as of Unicode 15. */
  predicate IsFormat(c: char) {
    var n := c as int;
    n == 0xAD || (0x600 <= n <= 0x605) || n == 0x61C || n == 0x6DD || n == 0x70F
    || (0x890 <= n <= 0x891) || n == 0x8E2 || n == 0x180E || (0x200B <= n <= 0x200F)
    || (0x202A <= n <= 0x202E) || (0x2060 <= n <= 0x2064) || (0x2066 <= n <= 0x206F)
    || n == 0xFEFF || (0xFFF9 <= n <= 0xFFFB) || n == 0x110BD || n == 0x110CD
    || (0x13430 <= n <= 0x1343F) || (0x1BCA0 <= n <= 0x1BCA3) || (0x1D173 <= n <= 0x1D17A)
    || n == 0xE0001 || (0xE0020 <= n <= 0xE007F)
  }

  /** c.isspace(): the characters str.strip removes. */
  predicate IsSpace(c: char) {
    var n := c as int;
    (0x9 <= n <= 0xD) || (0x1C <= n <= 0x20) || n == 0x85 || n == 0xA0 || n == 0x1680
    || (0x2000 <= n <= 0x200A) || n == 0x2028 || n == 0x2029 || n == 0x202F || n == 0x205F
    || n == 0x3000
  }

  /** Neither end of s is whitespace. */
  predicate Trimmed(s: string) {
    s == [] || (!IsSpace(s[0]) && !IsSpace(s[|s| - 1]))
  }

  predicate NoFormat(s: string) {
    forall i :: 0 <= i < |s| ==> !IsFormat(s[i])
  }

  /** What clean_text guarantees of its output. */
  predicate IsClean(s: string) {
    NoFormat(s) && Trimmed(s)
  }

  /** str.lstrip(): drop the leading whitespace. */
  function StripLeft(s: string): (r: string)
    ensures |r| <= |s|
    decreases |s|
  {
    if |s| > 0 && IsSpace(s[0]) then StripLeft(s[1..]) else s
  }

  /** str.rstrip(): drop the trailing whitespace. */
  function StripRight(s: string): (r: string)
    ensures |r| <= |s|
    decreases |s|
  {
    if |s| > 0 && IsSpace(s[|s| - 1]) then StripRight(s[..|s| - 1]) else s
  }

  /** str.strip(): drop the whitespace at both ends. */
  function Strip(s: string): string {
    StripRight(StripLeft(s))
  }

  /** lstrip leaves no whitespace at the front. */
  lemma {:induction false} StripLeftStarts(s: string)
    ensures var r := StripLeft(s); r == [] || !IsSpace(r[0])
    decreases |s|
  {
    if |s| > 0 && IsSpace(s[0]) {
      StripLeftStarts(s[1..]);
    }
  }

  /** rstrip leaves no whitespace at the back. */
  lemma {:induction false} StripRightEnds(s: string)
    ensures var r := StripRight(s); r == [] || !IsSpace(r[|r| - 1])
    decreases |s|
  {
    if |s| > 0 && IsSpace(s[|s| - 1]) {
      StripRightEnds(s[..|s| - 1]);
    }
  }

  /** strip leaves no whitespace at either end. */
  lemma {:induction false} StripTrimmed(s: string)
    ensures Trimmed(Strip(s))
  {
    var t := StripLeft(s);
    var r := StripRight(t);
    StripLeftStarts(s);
    StripRightEnds(t);
    StripRightIsPrefix(t);
    if r != [] {
      assert r[0] == t[0];
    }
  }

  /** lstrip keeps a suffix and removes only whitespace. */
  lemma {:induction false} StripLeftIsSuffix(s: string)
    ensures var r := StripLeft(s); var a := |s| - |r|;
      r == s[a..] && forall i :: 0 <= i < a ==> IsSpace(s[i])
    decreases |s|
  {
    if |s| > 0 && IsSpace(s[0]) {
      var t := s[1..];
      StripLeftIsSuffix(t);
      var b := |t| - |StripLeft(t)|;
      assert s[b + 1..] == t[b..];
      forall i | 0 <= i < b + 1 ensures IsSpace(s[i]) {
        if i > 0 {
          assert s[i] == t[i - 1];
        }
      }
    }
  }

  /** rstrip keeps a prefix and removes only whitespace. */
  lemma {:induction false} StripRightIsPrefix(s: string)
    ensures var r := StripRight(s);
      r == s[..|r|] && forall i :: |r| <= i < |s| ==> IsSpace(s[i])
    decreases |s|
  {
    if |s| > 0 && IsSpace(s[|s| - 1]) {
      StripRightIsPrefix(s[..|s| - 1]);
    }
  }

  /** strip keeps the piece of s that follows its a leading whitespace characters. */
  lemma {:induction false} StripIsSlice(s: string)
    ensures var r, a := Strip(s), |s| - |StripLeft(s)|;
      0 <= a && a + |r| <= |s| && r == s[a..a + |r|]
  {
    var t := StripLeft(s);
    var r := StripRight(t);
    StripLeftIsSuffix(s);
    StripRightIsPrefix(t);
    var a := |s| - |t|;
    assert s[a..a + |r|] == t[..|r|];
  }

  /** Everything strip removes from either end of s is whitespace. */
  lemma {:induction false} StripRemovesSpace(s: string)
    ensures var r, a := Strip(s), |s| - |StripLeft(s)|;
      a + |r| <= |s|
        && (forall i :: 0 <= i < a ==> IsSpace(s[i]))
        && (forall i :: a + |r| <= i < |s| ==> IsSpace(s[i]))
  {
    var t := StripLeft(s);
    var r := StripRight(t);
    StripLeftIsSuffix(s);
    StripRightIsPrefix(t);
    var a := |s| - |t|;
    forall i | a + |r| <= i < |s| ensures IsSpace(s[i]) {
      assert s[i] == t[i - a];
    }
  }

  /** A string without whitespace at either end is left as it is by strip. */
  lemma {:induction false} StripFixesTrimmed(s: string)
    requires Trimmed(s)
    ensures Strip(s) == s
  {
    assert StripLeft(s) == s;
    assert StripRight(s) == s;
  }

  /** The generator expression of clean_text: every character of category Cf dropped. */
  function RemoveFormat(s: string): (r: string)
    ensures |r| <= |s|
  {
    if s == [] then [] else Kept(s[0]) + RemoveFormat(s[1..])
  }

  /** What the filter keeps of one character. */
  function Kept(c: char): string {
    if IsFormat(c) then [] else [c]
  }

  /** RemoveFormat keeps exactly the characters that are not of category Cf. */
  lemma {:induction false} RemoveFormatKeeps(s: string)
    ensures forall c :: c in RemoveFormat(s) <==> c in s && !IsFormat(c)
    decreases |s|
  {
    if s != [] {
      RemoveFormatKeeps(s[1..]);
      assert s == [s[0]] + s[1..];
    }
  }

  /**
   * The filter keeps the order of the characters it keeps: filtering a
   * concatenation filters each part.
   */
  lemma {:induction false} RemoveFormatConcat(a: string, b: string)
    ensures RemoveFormat(a + b) == RemoveFormat(a) + RemoveFormat(b)
    decreases |a|
  {
    if a == [] {
      assert a + b == b;
    } else {
      RemoveFormatConcat(a[1..], b);
      assert (a + b)[0] == a[0];
      assert (a + b)[1..] == a[1..] + b;
    }
  }

  /** The filter works character by character: one of category Cf is dropped, any other kept. */
  lemma {:induction false} RemoveFormatChar(c: char)
    ensures RemoveFormat([c]) == if IsFormat(c) then [] else [c]
  {
    assert [c][1..] == [];
  }

  /** The filtered string has no character of category Cf, and a string without one is left as it is. */
  lemma {:induction false} RemoveFormatNoFormat(s: string)
    ensures NoFormat(RemoveFormat(s))
    ensures NoFormat(s) ==> RemoveFormat(s) == s
    decreases |s|
  {
    if s != [] {
      var t := s[1..];
      RemoveFormatNoFormat(t);
      var r := RemoveFormat(s);
      if !IsFormat(s[0]) {
        forall i | 0 <= i < |r| ensures !IsFormat(r[i]) {
          if i > 0 {
            assert r[i] == RemoveFormat(t)[i - 1];
          }
        }
        if NoFormat(s) {
          assert NoFormat(t) by {
            forall i | 0 <= i < |t| ensures !IsFormat(t[i]) {
              assert t[i] == s[i + 1];
            }
          }
          assert s == [s[0]] + t;
        }
      }
    }
  }

  /** clean_text (rag.py:46-48): drop the Cf characters, then strip. */
  function CleanText(text: string): string {
    Strip(RemoveFormat(text))
  }

  /** What clean_text returns has no Cf character and no whitespace at either end. */
  lemma {:induction false} CleanTextIsClean(text: string)
    ensures IsClean(CleanText(text))
  {
    var f := RemoveFormat(text);
    RemoveFormatNoFormat(text);
    StripIsSlice(f);
    StripTrimmed(f);
    var r := Strip(f);
    var a := |f| - |StripLeft(f)|;
    forall i | 0 <= i < |r| ensures !IsFormat(r[i]) {
      assert r[i] == f[a + i];
    }
  }

  /** Every character clean_text keeps comes from its input and is not of category Cf. */
  lemma {:induction false} CleanTextChars(text: string)
    ensures forall c :: c in CleanText(text) ==> c in text && !IsFormat(c)
  {
    var f := RemoveFormat(text);
    var r := Strip(f);
    RemoveFormatKeeps(text);
    StripIsSlice(f);
    assert forall i :: 0 <= i < |r| ==> r[i] in f;
  }

  /** Cleaning leaves a clean string as it is. */
  lemma {:induction false} CleanTextFixesClean(s: string)
    requires IsClean(s)
    ensures CleanText(s) == s
  {
    RemoveFormatNoFormat(s);
    StripFixesTrimmed(s);
  }

  /** clean_text is idempotent. */
  lemma {:induction false} CleanTextIdempotent(s: string)
    ensures CleanText(CleanText(s)) == CleanText(s)
  {
    CleanTextIsClean(s);
    CleanTextFixesClean(CleanText(s));
  }

  /** sep.join(ws). */
  function JoinWith(sep: string, ws: seq<string>): string
    decreases |ws|
  {
    if |ws| == 0 then ""
    else if |ws| == 1 then ws[0]
    else JoinWith(sep, ws[..|ws| - 1]) + sep + ws[|ws| - 1]
  }

  /** A non-empty join starts with the first piece and ends with the last one. */
  lemma {:induction false} JoinWithEnds(sep: string, ws: seq<string>)
    requires |ws| > 0
    ensures var r := JoinWith(sep, ws);
      |r| >= |ws[0]| && |r| >= |ws[|ws| - 1]|
      && r[..|ws[0]|] == ws[0] && r[|r| - |ws[|ws| - 1]|..] == ws[|ws| - 1]
    decreases |ws|
  {
    if |ws| > 1 {
      var init := ws[..|ws| - 1];
      JoinWithEnds(sep, init);
      var front := JoinWith(sep, init);
      var r := front + sep + ws[|ws| - 1];
      assert init[0] == ws[0];
      assert r[..|ws[0]|] == front[..|ws[0]|];
    }
  }

  /** The first position of c in s; |s| when c does not occur. */
  function IndexOf(c: char, s: string): (k: nat)
    ensures k <= |s|
    ensures forall j :: 0 <= j < k ==> s[j] != c
    ensures k < |s| ==> s[k] == c
    decreases |s|
  {
    if s == [] then 0
    else if s[0] == c then 0
    else 1 + IndexOf(c, s[1..])
  }

  /** s.split(sep) for a one-character separator: the pieces between the occurrences of sep. */
  function SplitOn(sep: char, s: string): (r: seq<string>)
    ensures |r| >= 1
    ensures forall i :: 0 <= i < |r| ==> sep !in r[i]
    decreases |s|
  {
    var k := IndexOf(sep, s);
    if k == |s| then [s] else [s[..k]] + SplitOn(sep, s[k + 1..])
  }

  /** Splitting a joined list recovers the list when no piece holds the separator. */
  lemma {:induction false} SplitJoin(sep: char, ws: seq<string>)
    requires |ws| >= 1
    requires forall i :: 0 <= i < |ws| ==> sep !in ws[i]
    ensures SplitOn(sep, JoinWith([sep], ws)) == ws
    decreases |ws|
  {
    var s := JoinWith([sep], ws);
    if |ws| == 1 {
      assert IndexOf(sep, s) == |s|;
    } else {
      var rest := JoinWith([sep], ws[1..]);
      assert [ws[0]] + ws[1..] == ws;
      JoinWithCons([sep], ws[0], ws[1..]);
      assert s == ws[0] + [sep] + rest;
      IndexOfPast(sep, ws[0], rest);
      assert s[..|ws[0]|] == ws[0];
      assert s[|ws[0]| + 1..] == rest;
      SplitJoin(sep, ws[1..]);
    }
  }

  lemma {:induction false} IndexOfPast(sep: char, w: string, rest: string)
    requires sep !in w
    ensures IndexOf(sep, w + [sep] + rest) == |w|
  {
    var s := w + [sep] + rest;
    assert s[..|w|] == w;
    assert s[|w|] == sep;
  }

  /** Joining peels off the first piece as well as the last. */
  lemma {:induction false} JoinWithCons(sep: string, w: string, rest: seq<string>)
    requires |rest| >= 1
    ensures JoinWith(sep, [w] + rest) == w + sep + JoinWith(sep, rest)
    decreases |rest|
  {
    var ws := [w] + rest;
    if |rest| == 1 {
      assert ws[..1] == [w];
    } else {
      var init := rest[..|rest| - 1];
      assert ws[..|ws| - 1] == [w] + init;
      JoinWithCons(sep, w, init);
    }
  }

  lemma {:induction false} SplitAround(s: string, k: nat)
    requires k < |s|
    ensures s == s[..k] + [s[k]] + s[k + 1..]
  {
  }

  /** Joining the pieces of a split gives back the string. */
  lemma {:induction false} JoinSplit(sep: char, s: string)
    ensures JoinWith([sep], SplitOn(sep, s)) == s
    decreases |s|
  {
    var k := IndexOf(sep, s);
    if k < |s| {
      var head, tail := s[..k], s[k + 1..];
      var rest := SplitOn(sep, tail);
      assert SplitOn(sep, s) == [head] + rest;
      JoinSplit(sep, tail);
      JoinWithCons([sep], head, rest);
      SplitAround(s, k);
    }
  }
}
