/** The cleaning block applied to the first table extracted from a report page
    (main_script_cf.py:103-116, repeated verbatim at 151-164): drop the index
    column, name the five data columns, recover the page titles from the compound
    headers into row 0, number the rows, keep ranks below 30, and stamp the date. */
module Cleaning {
  import opened Wrappers
  import opened Strings
  import opened Frames

  /** The artefact column the extractor adds, dropped first. */
  const IndexColumn := "Unnamed: 0"

  /** The labels given, by position, to the five columns that remain. */
  const ValueColumns := [
    "Description", "Network", "Total TV National Reach",
    "Total TV National Average Audience", "BVOD National Average Audience"
  ]

  const RankColumn := "Rank"
  const DateColumn := "Date"

  /** Rows keep `Rank < RankLimit`, so at most 29 survive. */
  const RankLimit := 30

  /** Compound headers hold a label and a title separated by a carriage return. */
  const HeaderSeparator := '\r'

  /** The columns of a cleaned table, in order. */
  const OutputColumns := [RankColumn] + ValueColumns + [DateColumn]

  /** `header.split('\r')[1]`: the title after the first carriage return, or the
      `IndexError` of a header without one. */
  function HeaderTitle(header: string): (r: Result<string, Error>)
    ensures r.Failure? <==> HeaderSeparator !in header
    ensures r.Failure? ==> r.error == IndexOutOfRange
    ensures r.Success? ==> HeaderSeparator !in r.value
  {
    SplitHasSecondPiece(header, HeaderSeparator);
    var pieces := Split(header, HeaderSeparator);
    if |pieces| < 2 then Failure(IndexOutOfRange) else Success(pieces[1])
  }

  /** The title is the text between the first carriage return and the next one, or
      the end of the header. */
  lemma HeaderTitleBetween(lead: string, title: string, rest: string)
    requires HeaderSeparator !in lead && HeaderSeparator !in title
    requires rest == [] || rest[0] == HeaderSeparator
    ensures HeaderTitle(lead + [HeaderSeparator] + title + rest) == Success(title)
  {
    var sep := HeaderSeparator;
    SplitAtFirst(lead, sep, title + rest);
    assert lead + [sep] + title + rest == lead + [sep] + (title + rest);
    if rest == [] {
      SplitWithoutSeparator(title, sep);
      assert title + rest == title;
    } else {
      SplitAtFirst(title, sep, rest[1..]);
      assert title + rest == title + [sep] + rest[1..];
    }
  }

  /** A compound header yields the text after its carriage return. */
  lemma CompoundHeaderExample()
    ensures HeaderTitle("Network\rSeven") == Success("Seven")
  {
    var header := "Network\rSeven";
    assert header == "Network" + [HeaderSeparator] + "Seven" + "";
    HeaderTitleBetween("Network", "Seven", "");
  }

  /** A plain header raises `IndexError`. */
  lemma PlainHeaderExample()
    ensures HeaderTitle("Network") == Failure(IndexOutOfRange)
  {
    assert forall k :: 0 <= k < |"Network"| ==> "Network"[k] != HeaderSeparator;
  }

  /** Positions, in the extracted table, of the columns that survive the drop. */
  function DataPositions(t: Table): seq<nat> {
    KeptPositions(t.columns, IndexColumn)
  }

  /** What the block needs of a table to run without raising: an index column to
      drop, exactly five columns besides it, and compound first and second headers. */
  predicate Cleanable(t: Table) {
    var ps := DataPositions(t);
    && IndexColumn in t.columns
    && |ps| == |ValueColumns|
    && HeaderSeparator in t.columns[ps[0]]
    && HeaderSeparator in t.columns[ps[1]]
  }

  /** The exception the block raises first on a table it cannot handle: `KeyError`
      without the index column, then the length mismatch when the other columns are
      not five, then `IndexError` for a header without a carriage return. */
  function CleanError(t: Table): Error
    requires !Cleanable(t)
  {
    if IndexColumn !in t.columns then MissingLabel(IndexColumn)
    else if |DataPositions(t)| != |ValueColumns| then LengthMismatch(|DataPositions(t)|, |ValueColumns|)
    else IndexOutOfRange
  }

  /** The title recovered from the compound header of data column `k` (0 or 1). */
  function Title(t: Table, k: nat): (title: string)
    requires Cleanable(t) && k < 2
  {
    var header := t.columns[DataPositions(t)[k]];
    SplitHasSecondPiece(header, HeaderSeparator);
    Split(header, HeaderSeparator)[1]
  }

  function Min(a: int, b: int): int {
    if a < b then a else b
  }

  /** Lines 103-109: the index column dropped, the five data columns named, and the
      titles of the first two compound headers written into row 0. */
  function Relabel(t: Table): (r: Result<Table, Error>)
    ensures r.Success? <==> Cleanable(t)
    ensures IndexColumn !in t.columns ==> r == Failure(MissingLabel(IndexColumn))
    ensures IndexColumn in t.columns && |DataPositions(t)| != |ValueColumns| ==>
      r == Failure(LengthMismatch(|DataPositions(t)|, |ValueColumns|))
    ensures IndexColumn in t.columns && |DataPositions(t)| == |ValueColumns| && !Cleanable(t) ==>
      r == Failure(IndexOutOfRange)
    ensures r.Success? ==> r.value.columns == ValueColumns && |r.value.rows| == |t.rows|
    ensures r.Success? ==> forall i, k :: 0 <= i < |t.rows| && 0 <= k < 5 && (i > 0 || k >= 2) ==>
      r.value.rows[i][k] == t.rows[i][DataPositions(t)[k]]
    ensures r.Success? && |t.rows| > 0 ==>
      r.value.rows[0][0] == Text(Title(t, 0)) && r.value.rows[0][1] == Text(Title(t, 1))
  {
    var dropped :- DropColumn(t, IndexColumn);
    var renamed :- Rename(dropped, ValueColumns);
    var description :- HeaderTitle(dropped.columns[0]);
    var network :- HeaderTitle(dropped.columns[1]);
    Success(SetCell(SetCell(renamed, 0, 0, Text(description)), 0, 1, Text(network)))
  }

  /** Lines 112-116: a 1-based `Rank` column in front, the rows ranked 30 or more
      removed, and a `Date` column at the end. */
  function Finish(titled: Table, date: string): (r: Table)
    requires titled.columns == ValueColumns
    ensures r.columns == OutputColumns
    ensures |r.rows| == Min(|titled.rows|, RankLimit - 1)
    ensures forall i :: 0 <= i < |r.rows| ==> r.rows[i] == [Int(i + 1)] + titled.rows[i] + [Text(date)]
  {
    var ranked := PrependCounter(titled, RankColumn, 1);
    FilterConsecutive(ranked.rows, 1, RankLimit);
    var kept := KeepRowsBelow(ranked, RankLimit);
    AppendColumn(kept, DateColumn, Text(date))
  }

  /** Cell by cell, a finished row is its rank, the titled row's five cells, and the
      date. */
  lemma FinishCells(titled: Table, date: string)
    requires titled.columns == ValueColumns
    ensures var r := Finish(titled, date);
      && (forall i :: 0 <= i < |r.rows| ==> r.rows[i][0] == Int(i + 1) && r.rows[i][6] == Text(date))
      && (forall i, k :: 0 <= i < |r.rows| && 0 <= k < 5 ==> r.rows[i][k + 1] == titled.rows[i][k])
  {
    var r := Finish(titled, date);
    forall i | 0 <= i < |r.rows|
      ensures r.rows[i][0] == Int(i + 1) && r.rows[i][6] == Text(date)
      ensures forall k :: 0 <= k < 5 ==> r.rows[i][k + 1] == titled.rows[i][k]
    {
      assert r.rows[i] == [Int(i + 1)] + titled.rows[i] + [Text(date)];
      assert |titled.rows[i]| == 5;
    }
  }

  /** The cleaning block on table `t` for report date `date`. */
  function Clean(t: Table, date: string): (r: Result<Table, Error>)
    ensures r.Success? <==> Cleanable(t)
    ensures IndexColumn !in t.columns ==> r == Failure(MissingLabel(IndexColumn))
    ensures IndexColumn in t.columns && |DataPositions(t)| != |ValueColumns| ==>
      r == Failure(LengthMismatch(|DataPositions(t)|, |ValueColumns|))
    ensures IndexColumn in t.columns && |DataPositions(t)| == |ValueColumns| && !Cleanable(t) ==>
      r == Failure(IndexOutOfRange)
    ensures r.Success? ==> r.value.columns == OutputColumns
    ensures r.Success? ==> |r.value.rows| == Min(|t.rows|, RankLimit - 1)
    ensures r.Success? ==> forall i :: 0 <= i < |r.value.rows| ==>
      r.value.rows[i][0] == Int(i + 1) && r.value.rows[i][6] == Text(date)
    ensures r.Success? ==> forall i, k :: 0 <= i < |r.value.rows| && 0 <= k < 5 && (i > 0 || k >= 2) ==>
      r.value.rows[i][k + 1] == t.rows[i][DataPositions(t)[k]]
    ensures r.Success? && |r.value.rows| > 0 ==>
      r.value.rows[0][1] == Text(Title(t, 0)) && r.value.rows[0][2] == Text(Title(t, 1))
  {
    var titled :- Relabel(t);
    FinishCells(titled, date);
    Success(Finish(titled, date))
  }

  /** On a table it cannot handle, the block raises exactly `CleanError`, whatever
      the date. */
  lemma CleanFailsWith(t: Table, date: string)
    requires !Cleanable(t)
    ensures Clean(t, date) == Failure(CleanError(t))
  {
  }

  /** A grid of at least thirty rows keeps exactly its first twenty-nine, ranked 1 to
      29 in their original order; the thirtieth row and later ones are dropped. */
  lemma TopTwentyNine(t: Table, date: string)
    requires Cleanable(t) && |t.rows| >= RankLimit
    ensures var r := Clean(t, date);
      && r.Success? && |r.value.rows| == 29
      && (forall i :: 0 <= i < 29 ==> r.value.rows[i][0] == Int(i + 1))
      && (forall i :: 1 <= i < 29 ==> r.value.rows[i][1..6] == Project(t.rows[i], DataPositions(t)))
  {
    var r := Clean(t, date);
    forall i | 1 <= i < 29
      ensures r.value.rows[i][1..6] == Project(t.rows[i], DataPositions(t))
    {
      assert forall k :: 0 <= k < 5 ==> r.value.rows[i][1..6][k] == r.value.rows[i][k + 1];
    }
  }
}
