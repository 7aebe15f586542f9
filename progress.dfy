/**
 * The progress cursor (rag.py:32-43): the last processed line number, kept
 * as its decimal text in the progress file. The file is modelled as an
 * Option<string>: None when it does not exist, otherwise its contents.
 */
module Progress {
  import opened Wrappers
  import opened Text

  predicate IsDigit(c: char) {
    '0' <= c <= '9'
  }

  predicate AllDigits(s: string) {
    forall i :: 0 <= i < |s| ==> IsDigit(s[i])
  }

  /** The decimal digit for d. */
  function Digit(d: nat): (c: char)
    requires d < 10
    ensures IsDigit(c)
  {
    (('0' as int) + d) as char
  }

  /** The value of a run of decimal digits, read most significant first. */
  function DigitsValue(s: string): nat
    requires AllDigits(s)
    decreases |s|
  {
    if s == [] then 0
    else DigitsValue(s[..|s| - 1]) * 10 + ((s[|s| - 1] as int) - ('0' as int))
  }

  /** str(n) for a natural number n: its decimal digits, without leading zeros. */
  function Decimal(n: nat): (s: string)
    decreases n
  {
    if n < 10 then [Digit(n)] else Decimal(n / 10) + [Digit(n % 10)]
  }

  /** str(n) (rag.py:43): a minus sign before the digits of a negative number. */
  function Str(n: int): string {
    if n < 0 then "-" + Decimal(-n) else Decimal(n)
  }

  /**
   * int(s) on text already stripped: an optional sign, then at least one
   * decimal digit; anything else makes int raise, here None.
   */
  function ParseInt(s: string): (r: Option<int>)
    ensures r.Some? ==> s != []
  {
    if s != [] && (s[0] == '-' || s[0] == '+') then
      var t := s[1..];
      if t != [] && AllDigits(t) then Some(if s[0] == '-' then 0 - DigitsValue(t) as int else DigitsValue(t))
      else None
    else if s != [] && AllDigits(s) then Some(DigitsValue(s))
    else None
  }

  /** Why get_last_processed_line raised. */
  datatype CursorError = NotANumber(contents: string)

  /** get_last_processed_line (rag.py:32-37): 0 without a progress file, else int(contents.strip()). */
  function ReadCursor(file: Option<string>): (r: Result<int, CursorError>)
    ensures file.None? ==> r == Success(0)
  {
    match file
    case None => Success(0)
    case Some(contents) =>
      match ParseInt(Strip(contents))
      case None => Failure(NotANumber(contents))
      case Some(n) => Success(n)
  }

  /** The file save_last_processed_line leaves behind (rag.py:40-43). */
  function WriteCursor(n: int): Option<string> {
    Some(Str(n))
  }

  /** The decimal digits of n are digits, and are not empty. */
  lemma {:induction false} DecimalDigits(n: nat)
    ensures Decimal(n) != [] && AllDigits(Decimal(n))
    decreases n
  {
    if n >= 10 {
      DecimalDigits(n / 10);
    }
  }

  /** Reading the digits of n gives n back. */
  lemma {:induction false} DecimalValue(n: nat)
    ensures AllDigits(Decimal(n)) && DigitsValue(Decimal(n)) == n
    decreases n
  {
    DecimalDigits(n);
    if n >= 10 {
      var s := Decimal(n);
      DecimalValue(n / 10);
      assert s[..|s| - 1] == Decimal(n / 10);
    }
  }

  /** int(str(n)) == n for every integer n. */
  lemma {:induction false} ParseStr(n: int)
    ensures ParseInt(Str(n)) == Some(n)
  {
    if n < 0 {
      DecimalValue(-n);
      DecimalDigits(-n);
      ParseNegative(Decimal(-n));
    } else {
      DecimalValue(n);
      DecimalDigits(n);
      ParseDigits(Decimal(n));
    }
  }

  /** int of a run of digits is their value. */
  lemma {:induction false} ParseDigits(s: string)
    requires s != [] && AllDigits(s)
    ensures ParseInt(s) == Some(DigitsValue(s))
  {
    assert IsDigit(s[0]);
  }

  /** int of a minus sign before a run of digits is minus their value. */
  lemma {:induction false} ParseNegative(t: string)
    requires t != [] && AllDigits(t)
    ensures ParseInt("-" + t) == Some(0 - DigitsValue(t) as int)
  {
    var s := "-" + t;
    assert s[0] == '-';
    assert s[1..] == t;
  }

  /**
   * Cursor round trip: after save_last_processed_line(n),
   * get_last_processed_line returns n (rag.py:32-43).
   */
  lemma {:induction false} CursorRoundTrip(n: int)
    ensures ReadCursor(WriteCursor(n)) == Success(n)
  {
    var s := Str(n);
    DecimalDigits(if n < 0 then -n else n);
    assert s[|s| - 1] == Decimal(if n < 0 then -n else n)[|Decimal(if n < 0 then -n else n)| - 1];
    StripFixesTrimmed(s);
    ParseStr(n);
  }

  /** A progress file whose stripped text has no digit makes get_last_processed_line raise (rag.py:36). */
  lemma {:induction false} CursorWithoutDigitFails(contents: string)
    requires forall i :: 0 <= i < |Strip(contents)| ==> !IsDigit(Strip(contents)[i])
    ensures ReadCursor(Some(contents)) == Failure(NotANumber(contents))
  {
    var s := Strip(contents);
    if s != [] && (s[0] == '-' || s[0] == '+') && s[1..] != [] {
      assert s[1..][0] == s[1];
    }
  }
}
