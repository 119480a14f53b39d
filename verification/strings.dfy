/** Python `str` operations the script relies on, over `seq<char>`: `endswith`,
    `split` on a one-character separator, `join`, `replace(c, '')`, and decimal
    digits. */
module Strings {

  /** `s.endswith(suffix)` */
  predicate EndsWith(s: string, suffix: string) {
    |suffix| <= |s| && s[|s| - |suffix|..] == suffix
  }

  /** A suffix of a string that itself ends in `suffix`, and is at least as long as it,
      also ends in `suffix`. */
  lemma EndsWithSuffix(s: string, tail: string, suffix: string)
    requires EndsWith(s, tail) && EndsWith(s, suffix) && |suffix| <= |tail|
    ensures EndsWith(tail, suffix)
  {
    assert tail[|tail| - |suffix|..] == s[|s| - |suffix|..];
  }

  /** `s.split(sep)` for a one-character separator: the pieces between consecutive
      separators, always at least one, none containing the separator. */
  function Split(s: string, sep: char): (pieces: seq<string>)
    ensures |pieces| >= 1
    ensures forall i :: 0 <= i < |pieces| ==> sep !in pieces[i]
    decreases |s|
  {
    if |s| == 0 then [""]
    else
      var rest := Split(s[1..], sep);
      if s[0] == sep then [""] + rest
      else [[s[0]] + rest[0]] + rest[1..]
  }

  /** `sep.join(pieces)` */
  function Join(pieces: seq<string>, sep: char): string
    requires |pieces| >= 1
    decreases |pieces|
  {
    if |pieces| == 1 then pieces[0]
    else pieces[0] + [sep] + Join(pieces[1..], sep)
  }

  /** Joining the pieces of a split restores the original string. */
  lemma {:induction false} JoinSplit(s: string, sep: char)
    ensures Join(Split(s, sep), sep) == s
    decreases |s|
  {
    if |s| > 0 {
      var rest := Split(s[1..], sep);
      JoinSplit(s[1..], sep);
      assert [s[0]] + s[1..] == s;
      if s[0] == sep {
        assert Join(Split(s, sep), sep) == "" + [sep] + Join(rest, sep);
      } else if |rest| > 1 {
        assert Split(s, sep)[1..] == rest[1..];
        assert Join(rest, sep) == rest[0] + [sep] + Join(rest[1..], sep);
        assert Join(Split(s, sep), sep) == [s[0]] + rest[0] + [sep] + Join(rest[1..], sep);
      }
    }
  }

  /** A string without the separator is one piece. */
  lemma {:induction false} SplitWithoutSeparator(s: string, sep: char)
    requires sep !in s
    ensures Split(s, sep) == [s]
    decreases |s|
  {
    if |s| > 0 {
      SplitWithoutSeparator(s[1..], sep);
      assert [s[0]] + s[1..] == s;
    }
  }

  /** The first piece is the text before the first separator; the remaining pieces
      are those of the text after it. */
  lemma {:induction false} SplitAtFirst(a: string, sep: char, b: string)
    requires sep !in a
    ensures Split(a + [sep] + b, sep) == [a] + Split(b, sep)
    decreases |a|
  {
    var s := a + [sep] + b;
    if |a| > 0 {
      assert s[1..] == a[1..] + [sep] + b;
      SplitAtFirst(a[1..], sep, b);
      assert [a[0]] + a[1..] == a;
    } else {
      assert s[1..] == b;
    }
  }

  /** Splitting a join of separator-free pieces gives back the pieces. */
  lemma {:induction false} SplitJoin(pieces: seq<string>, sep: char)
    requires |pieces| >= 1
    requires forall i :: 0 <= i < |pieces| ==> sep !in pieces[i]
    ensures Split(Join(pieces, sep), sep) == pieces
    decreases |pieces|
  {
    if |pieces| == 1 {
      SplitWithoutSeparator(pieces[0], sep);
    } else {
      SplitJoin(pieces[1..], sep);
      SplitAtFirst(pieces[0], sep, Join(pieces[1..], sep));
      assert [pieces[0]] + pieces[1..] == pieces;
    }
  }

  /** A split yields a second piece exactly when the separator occurs. */
  lemma {:induction false} SplitHasSecondPiece(s: string, sep: char)
    ensures |Split(s, sep)| >= 2 <==> sep in s
    decreases |s|
  {
    if |s| > 0 {
      SplitHasSecondPiece(s[1..], sep);
      assert sep in s <==> s[0] == sep || sep in s[1..];
    }
  }

  /** The text after the last separator (`s.split(sep)[-1]`). */
  function LastPiece(s: string, sep: char): string {
    var pieces := Split(s, sep);
    pieces[|pieces| - 1]
  }

  /** Dropping the first character keeps the last piece, unless the string has no
      separator, in which case the last piece is the whole string. */
  lemma LastPieceStep(s: string, sep: char)
    requires |s| > 0
    ensures LastPiece(s, sep) == if sep in s then LastPiece(s[1..], sep) else s
  {
    var tail := s[1..];
    var rest := Split(tail, sep);
    SplitHasSecondPiece(tail, sep);
    assert sep in s <==> s[0] == sep || sep in tail;
    if s[0] != sep && sep !in tail {
      SplitWithoutSeparator(tail, sep);
      assert Split(s, sep) == [[s[0]] + tail];
      assert [s[0]] + tail == s;
    }
  }

  /** The last piece ends the string. */
  lemma {:induction false} LastPieceEndsString(s: string, sep: char)
    ensures EndsWith(s, LastPiece(s, sep))
    decreases |s|
  {
    if |s| == 0 {
      assert Split(s, sep) == [""];
    } else {
      LastPieceStep(s, sep);
      if sep in s {
        var last := LastPiece(s[1..], sep);
        LastPieceEndsString(s[1..], sep);
        assert s[|s| - |last|..] == s[1..][|s| - 1 - |last|..];
      }
    }
  }

  /** A last piece shorter than the string is preceded by the separator. */
  lemma {:induction false} LastPieceAfterSeparator(s: string, sep: char)
    requires |LastPiece(s, sep)| < |s|
    ensures s[|s| - |LastPiece(s, sep)| - 1] == sep
    decreases |s|
  {
    LastPieceStep(s, sep);
    var tail := s[1..];
    var last := LastPiece(tail, sep);
    assert LastPiece(s, sep) == last;
    LastPieceEndsString(tail, sep);
    if |last| < |tail| {
      LastPieceAfterSeparator(tail, sep);
      assert s[|s| - |last| - 1] == tail[|tail| - |last| - 1];
    } else {
      assert |last| == |tail|;
      LastPieceWhole(tail, sep);
      assert s[|s| - |last| - 1] == s[0];
    }
  }

  /** The last piece is the whole string exactly when there is no separator. */
  lemma LastPieceWhole(s: string, sep: char)
    ensures |LastPiece(s, sep)| == |s| <==> sep !in s
  {
    if |s| == 0 {
      assert Split(s, sep) == [""];
    } else {
      LastPieceStep(s, sep);
      LastPieceEndsString(s[1..], sep);
    }
  }

  /** The last piece of a split is a suffix of the string, and is preceded by the
      separator unless the string has no separator at all. */
  lemma LastPieceIsSuffix(s: string, sep: char)
    ensures EndsWith(s, LastPiece(s, sep))
    ensures |LastPiece(s, sep)| < |s| ==> s[|s| - |LastPiece(s, sep)| - 1] == sep
    ensures |LastPiece(s, sep)| == |s| <==> sep !in s
  {
    LastPieceEndsString(s, sep);
    if |LastPiece(s, sep)| < |s| {
      LastPieceAfterSeparator(s, sep);
    }
    LastPieceWhole(s, sep);
  }

  /** `s.replace(c, '')`: every occurrence of `c` deleted, the rest kept in order. */
  function RemoveChar(s: string, c: char): (r: string)
    ensures c !in r
    ensures |r| <= |s|
    ensures c !in s ==> r == s
    decreases |s|
  {
    if |s| == 0 then ""
    else if s[0] == c then RemoveChar(s[1..], c)
    else [s[0]] + RemoveChar(s[1..], c)
  }

  /** Deleting a character distributes over concatenation. */
  lemma {:induction false} RemoveCharConcat(a: string, b: string, c: char)
    ensures RemoveChar(a + b, c) == RemoveChar(a, c) + RemoveChar(b, c)
    decreases |a|
  {
    if |a| > 0 {
      assert (a + b)[1..] == a[1..] + b;
      RemoveCharConcat(a[1..], b, c);
    } else {
      assert a + b == b;
    }
  }

  /** On one character, `replace(c, '')` deletes it if it is `c` and keeps it
      otherwise; with `RemoveCharConcat` this determines `RemoveChar` on every
      string. */
  lemma RemoveCharOne(x: char, c: char)
    ensures RemoveChar([x], c) == if x == c then "" else [x]
  {
    assert [x][1..] == "";
  }

  /** Deleting `c` from a text, a `c`, and a tail without `c` deletes it from the
      text and the separator and keeps the tail. */
  lemma RemoveSeparator(a: string, b: string, c: char)
    requires c !in b
    ensures RemoveChar(a + [c] + b, c) == RemoveChar(a, c) + b
  {
    RemoveCharConcat(a + [c], b, c);
    RemoveCharConcat(a, [c], c);
    RemoveCharOne(c, c);
  }

  predicate IsDigit(ch: char) {
    '0' <= ch <= '9'
  }

  predicate AllDigits(s: string) {
    forall i :: 0 <= i < |s| ==> IsDigit(s[i])
  }

  function Pow10(n: nat): (p: nat)
    ensures p >= 1
  {
    if n == 0 then 1 else 10 * Pow10(n - 1)
  }

  function DigitChar(d: nat): (ch: char)
    requires d < 10
    ensures IsDigit(ch)
  {
    ('0' as int + d) as char
  }

  function DigitValue(ch: char): (d: nat)
    requires IsDigit(ch)
    ensures d < 10
  {
    ch as int - '0' as int
  }

  /** `n` written in decimal with leading zeros to exactly `width` digits (as the
      `%Y`, `%m` and `%d` directives of `strftime` write a year, month and day). */
  function PadDigits(n: nat, width: nat): (s: string)
    requires n < Pow10(width)
    ensures |s| == width
    ensures AllDigits(s)
  {
    if width == 0 then ""
    else PadDigits(n / 10, width - 1) + [DigitChar(n % 10)]
  }

  /** The number a string of decimal digits denotes. */
  function DigitsValue(s: string): nat
    requires AllDigits(s)
  {
    if |s| == 0 then 0
    else 10 * DigitsValue(s[..|s| - 1]) + DigitValue(s[|s| - 1])
  }

  /** Reading zero-padded digits back yields the number that was written. */
  lemma {:induction false} PadDigitsRoundTrip(n: nat, width: nat)
    requires n < Pow10(width)
    ensures DigitsValue(PadDigits(n, width)) == n
  {
    if width > 0 {
      var s := PadDigits(n, width);
      assert s[..|s| - 1] == PadDigits(n / 10, width - 1);
      PadDigitsRoundTrip(n / 10, width - 1);
    }
  }

  /** `str(n)` for a natural number: decimal without leading zeros. */
  function Decimal(n: nat): (s: string)
    ensures 1 <= |s|
    ensures AllDigits(s)
    ensures |s| > 1 ==> s[0] != '0'
  {
    if n < 10 then [DigitChar(n)]
    else Decimal(n / 10) + [DigitChar(n % 10)]
  }

  /** Reading a decimal numeral back yields the number. */
  lemma {:induction false} DecimalRoundTrip(n: nat)
    ensures DigitsValue(Decimal(n)) == n
  {
    if n >= 10 {
      var s := Decimal(n);
      assert s[..|s| - 1] == Decimal(n / 10);
      DecimalRoundTrip(n / 10);
    }
  }
}
