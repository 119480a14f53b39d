/** The few data-frame operations the cleaning block uses, on a rectangular table of
    cells with a header of column labels. Rows are addressed by position, which is
    also their label: the extractor's frames carry a default 0-based index. */
module Frames {
  import opened Wrappers
  import opened Strings

  /** A cell: text as the extractor reads it, or an integer the transform computes. */
  datatype Cell = Text(text: string) | Int(value: int)

  datatype Frame = Frame(columns: seq<string>, rows: seq<seq<Cell>>)

  /** Every row has one cell per column. */
  predicate Rectangular(f: Frame) {
    forall i :: 0 <= i < |f.rows| ==> |f.rows[i]| == |f.columns|
  }

  type Table = f: Frame | Rectangular(f) witness Frame([], [])

  /** The exceptions the cleaning block can raise, with the text Python gives them. */
  datatype Error =
    | MissingLabel(name: string)               // pandas `KeyError` from `drop`
    | LengthMismatch(expected: nat, given: nat) // pandas `ValueError` from setting `columns`
    | IndexOutOfRange                           // Python `IndexError` from a list subscript
  {
    /** The text Python prints for the exception, which the job puts after
        `Pipeline failed: ` in its reply, for a label without quotes or backslashes
        (such as `Unnamed: 0`), which `repr` writes as it is. Its first character
        tells the three kinds apart. */
    function Message(): (m: string)
      ensures |m| > 0
      ensures m[0] == '"' <==> this.MissingLabel?
      ensures m[0] == 'L' <==> this.LengthMismatch?
      ensures m[0] == 'l' <==> this.IndexOutOfRange?
    {
      match this
      case MissingLabel(name) => "\"['" + name + "'] not found in axis\""
      case LengthMismatch(expected, given) =>
        "Length mismatch: Expected axis has " + Decimal(expected)
        + " elements, new values have " + Decimal(given) + " elements"
      case IndexOutOfRange => "list index out of range"
    }
  }

  /** Two exceptions with the same text are the same exception: the reply names the
      missing label, or both counts of a length mismatch, unambiguously. */
  lemma MessageIdentifiesError(a: Error, b: Error)
    requires a.Message() == b.Message()
    ensures a == b
  {
    match a
    case MissingLabel(x) => LabelMessageInjective(x, b.name);
    case LengthMismatch(e, g) => CountsMessageInjective(e, g, b.expected, b.given);
    case IndexOutOfRange =>
  }

  /** The `KeyError` text determines the missing label. */
  lemma LabelMessageInjective(x: string, y: string)
    requires MissingLabel(x).Message() == MissingLabel(y).Message()
    ensures x == y
  {
    var head, tail := "\"['", "'] not found in axis\"";
    assert MissingLabel(x).Message() == head + (x + tail);
    assert MissingLabel(y).Message() == head + (y + tail);
    DropPrefix(head, x + tail, y + tail);
    assert x == (x + tail)[..|x|];
  }

  /** The length-mismatch text determines both counts. */
  lemma CountsMessageInjective(e: nat, g: nat, e': nat, g': nat)
    requires LengthMismatch(e, g).Message() == LengthMismatch(e', g').Message()
    ensures e == e' && g == g'
  {
    var head := "Length mismatch: Expected axis has ";
    var mid := " elements, new values have ";
    TwoNumbersText(head, Decimal(e), mid, Decimal(g), " elements", Decimal(e'), Decimal(g'));
    DecimalRoundTrip(e);
    DecimalRoundTrip(e');
    DecimalRoundTrip(g);
    DecimalRoundTrip(g');
  }

  /** Where a position of a concatenation falls. */
  lemma ConcatAt(a: string, b: string, i: nat)
    ensures i < |a| ==> (a + b)[i] == a[i]
    ensures |a| <= i < |a| + |b| ==> (a + b)[i] == b[i - |a|]
  {
  }

  /** Two digit runs, each followed by a fixed non-digit text, read off a string
      unambiguously. */
  lemma TwoNumbersText(h: string, u: string, m: string, v: string, l: string, u': string, v': string)
    requires AllDigits(u) && AllDigits(v) && AllDigits(u') && AllDigits(v')
    requires |m| > 0 && !IsDigit(m[0]) && |l| > 0 && !IsDigit(l[0])
    requires h + u + m + v + l == h + u' + m + v' + l
    ensures u == u' && v == v'
  {
    assert h + u + m + v + l == h + (u + ((m + v) + l));
    assert h + u' + m + v' + l == h + (u' + ((m + v') + l));
    DropPrefix(h, u + ((m + v) + l), u' + ((m + v') + l));
    DigitRunPrefix(u, (m + v) + l, u', (m + v') + l);
    assert (m + v) + l == m + (v + l);
    assert (m + v') + l == m + (v' + l);
    DropPrefix(m, v + l, v' + l);
    DigitRunPrefix(v, l, v', l);
  }

  /** Equal strings with the same prefix have the same rest. */
  lemma DropPrefix(p: string, s: string, t: string)
    requires p + s == p + t
    ensures s == t
  {
    assert s == (p + s)[|p|..];
    assert t == (p + t)[|p|..];
  }

  /** A run of digits followed by a non-digit is read off a string unambiguously. */
  lemma DigitRunPrefix(x: string, q: string, y: string, r: string)
    requires AllDigits(x) && AllDigits(y)
    requires |q| > 0 && !IsDigit(q[0]) && |r| > 0 && !IsDigit(r[0])
    requires x + q == y + r
    ensures x == y && q == r
  {
    ConcatAt(x, q, |x|);
    ConcatAt(y, r, |x|);
    ConcatAt(x, q, |y|);
    ConcatAt(y, r, |y|);
    if |x| < |y| {
      assert false;
    }
    if |y| < |x| {
      assert false;
    }
    assert x == (x + q)[..|x|];
    assert y == (y + r)[..|y|];
    assert q == (x + q)[|x|..];
    assert r == (y + r)[|y|..];
  }

  /** Positions of the columns not labelled `name`, in order. */
  function KeptPositions(columns: seq<string>, name: string): (ps: seq<nat>)
    ensures |ps| <= |columns|
    ensures forall k :: 0 <= k < |ps| ==> ps[k] < |columns| && columns[ps[k]] != name
    ensures forall k, l :: 0 <= k < l < |ps| ==> ps[k] < ps[l]
    ensures forall j :: 0 <= j < |columns| && columns[j] != name ==> j in ps
    ensures name in columns ==> |ps| < |columns|
    ensures name !in columns ==> forall k :: 0 <= k < |ps| ==> ps[k] == k
    decreases |columns|
  {
    if |columns| == 0 then []
    else
      var n := |columns| - 1;
      var front := columns[..n];
      var ps := KeptPositions(front, name);
      assert forall j :: 0 <= j < n ==> front[j] == columns[j];
      assert name in columns <==> name in front || columns[n] == name;
      if columns[n] != name then ps + [n] else ps
  }

  /** The cells of `row` at positions `ps`, in that order. */
  function Project<T>(row: seq<T>, ps: seq<nat>): (r: seq<T>)
    requires forall k :: 0 <= k < |ps| ==> ps[k] < |row|
    ensures |r| == |ps|
    ensures forall k :: 0 <= k < |ps| ==> r[k] == row[ps[k]]
  {
    seq(|ps|, k requires 0 <= k < |ps| => row[ps[k]])
  }

  /** `df.drop([name], axis=1)`: every column labelled `name` removed, the others
      kept in order with all their cells; `KeyError` when no column has that name. */
  function DropColumn(t: Table, name: string): (r: Result<Table, Error>)
    ensures r.Failure? <==> name !in t.columns
    ensures r.Failure? ==> r.error == MissingLabel(name)
    ensures r.Success? ==> name !in r.value.columns && |r.value.rows| == |t.rows|
    ensures r.Success? ==>
      var ps := KeptPositions(t.columns, name);
      && r.value.columns == Project(t.columns, ps)
      && forall i :: 0 <= i < |t.rows| ==> r.value.rows[i] == Project(t.rows[i], ps)
  {
    if name !in t.columns then Failure(MissingLabel(name))
    else
      var ps := KeptPositions(t.columns, name);
      var rows := seq(|t.rows|, i requires 0 <= i < |t.rows| => Project(t.rows[i], ps));
      Success(Frame(Project(t.columns, ps), rows))
  }

  /** `df.columns = labels`: the labels replaced positionally, the cells untouched;
      `ValueError` unless there is one label per column. */
  function Rename(t: Table, labels: seq<string>): (r: Result<Table, Error>)
    ensures r.Failure? <==> |labels| != |t.columns|
    ensures r.Failure? ==> r.error == LengthMismatch(|t.columns|, |labels|)
    ensures r.Success? ==> r.value.columns == labels && r.value.rows == t.rows
  {
    if |labels| != |t.columns| then Failure(LengthMismatch(|t.columns|, |labels|))
    else Success(Frame(labels, t.rows))
  }

  /** `df[column][row] = v` for row label `row`: that one cell replaced when the row
      exists, nothing else changed. */
  function SetCell(t: Table, row: nat, column: nat, v: Cell): (r: Table)
    requires column < |t.columns|
    ensures r.columns == t.columns && |r.rows| == |t.rows|
    ensures forall i, j :: 0 <= i < |t.rows| && 0 <= j < |t.columns| ==>
      r.rows[i][j] == if i == row && j == column then v else t.rows[i][j]
  {
    if row < |t.rows| then Frame(t.columns, t.rows[row := t.rows[row][column := v]])
    else t
  }

  /** `reset_index()`, shifted to start at `first` and relabelled: a new first column
      `name` numbering the rows `first`, `first + 1`, ... in order. */
  function PrependCounter(t: Table, name: string, first: int): (r: Table)
    ensures r.columns == [name] + t.columns
    ensures |r.rows| == |t.rows|
    ensures forall i :: 0 <= i < |t.rows| ==> r.rows[i] == [Int(first + i)] + t.rows[i]
  {
    Frame([name] + t.columns, seq(|t.rows|, i requires 0 <= i < |t.rows| => [Int(first + i)] + t.rows[i]))
  }

  /** The mask `df[df[first column] < limit]` on one row. */
  predicate FirstBelow(row: seq<Cell>, limit: int) {
    |row| > 0 && row[0].Int? && row[0].value < limit
  }

  /** The rows whose first cell is an integer below `limit`, in their original order. */
  function FilterRows(rows: seq<seq<Cell>>, limit: int): (kept: seq<seq<Cell>>)
    ensures |kept| <= |rows|
    ensures forall k :: 0 <= k < |kept| ==> kept[k] in rows && FirstBelow(kept[k], limit)
    ensures forall i :: 0 <= i < |rows| && FirstBelow(rows[i], limit) ==> rows[i] in kept
    decreases |rows|
  {
    if |rows| == 0 then []
    else (if FirstBelow(rows[0], limit) then [rows[0]] else []) + FilterRows(rows[1..], limit)
  }

  /** The mask keeps rows in their original order: filtering a concatenation is
      filtering each part. */
  lemma {:induction false} FilterRowsAppend(a: seq<seq<Cell>>, b: seq<seq<Cell>>, limit: int)
    ensures FilterRows(a + b, limit) == FilterRows(a, limit) + FilterRows(b, limit)
    decreases |a|
  {
    if |a| == 0 {
      assert a + b == b;
    } else {
      assert (a + b)[1..] == a[1..] + b;
      FilterRowsAppend(a[1..], b, limit);
    }
  }

  /** On one row, the mask keeps it exactly when its first cell is an integer below
      the limit; with `FilterRowsAppend` this determines `FilterRows` on every input. */
  lemma FilterRowsOne(row: seq<Cell>, limit: int)
    ensures FilterRows([row], limit) == if FirstBelow(row, limit) then [row] else []
  {
    assert [row][1..] == [];
  }

  /** `df[df[first column] < limit]`: the rows whose first column holds an integer
      below `limit`, all of them and only them, in their input order, under the same
      columns. */
  function KeepRowsBelow(t: Table, limit: int): (r: Table)
    ensures r.columns == t.columns
    ensures r.rows == FilterRows(t.rows, limit)
    ensures |r.rows| <= |t.rows|
    ensures forall k :: 0 <= k < |r.rows| ==> r.rows[k] in t.rows && FirstBelow(r.rows[k], limit)
    ensures forall i :: 0 <= i < |t.rows| && FirstBelow(t.rows[i], limit) ==> t.rows[i] in r.rows
  {
    var kept := FilterRows(t.rows, limit);
    assert forall k :: 0 <= k < |kept| ==> |kept[k]| == |t.columns| by {
      forall k | 0 <= k < |kept| ensures |kept[k]| == |t.columns| {
        var i :| 0 <= i < |t.rows| && t.rows[i] == kept[k];
      }
    }
    Frame(t.columns, kept)
  }

  function Clamp(x: int, n: nat): (c: nat)
    ensures c <= n
  {
    if x < 0 then 0 else if x > n then n else x
  }

  /** On rows numbered consecutively from `first`, the mask `< limit` keeps exactly
      the leading rows numbered below `limit`. */
  lemma {:induction false} FilterConsecutive(rows: seq<seq<Cell>>, first: int, limit: int)
    requires forall i :: 0 <= i < |rows| ==> |rows[i]| > 0 && rows[i][0] == Int(first + i)
    ensures FilterRows(rows, limit) == rows[..Clamp(limit - first, |rows|)]
    decreases |rows|
  {
    if |rows| > 0 {
      FilterConsecutive(rows[1..], first + 1, limit);
      if first < limit {
        assert [rows[0]] + rows[1..][..Clamp(limit - (first + 1), |rows| - 1)]
          == rows[..Clamp(limit - first, |rows|)];
      }
    }
  }

  /** `df[name] = v`: a new last column holding `v` in every row. */
  function AppendColumn(t: Table, name: string, v: Cell): (r: Table)
    ensures r.columns == t.columns + [name]
    ensures |r.rows| == |t.rows|
    ensures forall i :: 0 <= i < |t.rows| ==> r.rows[i] == t.rows[i] + [v]
  {
    Frame(t.columns + [name], seq(|t.rows|, i requires 0 <= i < |t.rows| => t.rows[i] + [v]))
  }
}
