// Code ranges: the `lines` and `word` helpers of src/CodeRange.ts.
//
// A code point is a row and a column; a range is a start point and an end
// point.  The end column of `lines`, and of `word` without a length, is
// JavaScript's `Infinity`, modelled as `Unbounded`.

module Ranges {
  import opened Wrappers

  /** A column: a number of characters, or `Infinity` for the end of the row. */
  datatype Column = Finite(n: int) | Unbounded

  /** `CodePoint`: `[row, column]`. */
  datatype CodePoint = CodePoint(row: int, column: Column)

  /** `CodeRange`: `[start, end]`. */
  datatype CodeRange = CodeRange(start: CodePoint, end: CodePoint)

  /** Column order, with `Infinity` after every number. */
  predicate ColumnAtMost(a: Column, b: Column)
  {
    match (a, b)
    case (Finite(x), Finite(y)) => x <= y
    case (_, Unbounded) => true
    case (Unbounded, Finite(_)) => false
  }

  /** Row-major order of points. */
  predicate AtMost(p: CodePoint, q: CodePoint)
  {
    p.row < q.row || (p.row == q.row && ColumnAtMost(p.column, q.column))
  }

  /** A point lies in a range when it is between the range's ends in row-major order. */
  predicate Within(p: CodePoint, r: CodeRange)
  {
    AtMost(r.start, p) && AtMost(p, r.end)
  }

  /** JavaScript `+` on a number and a column: anything plus `Infinity` is `Infinity`. */
  function Add(x: int, c: Column): Column
  {
    match c
    case Finite(n) => Finite(x + n)
    case Unbounded => Unbounded
  }

  /**
   * `lines(from, to)`: from the start of row `from` to the end of row `to`,
   * or of row `from` itself when `to` is omitted.
   */
  function Lines(from: int, to: Option<int>): (r: CodeRange)
    ensures r.start == CodePoint(from, Finite(0))
    ensures r.end.column == Unbounded
    ensures to.None? ==> r.end.row == from
    ensures to.Some? ==> r.end.row == to.value
  {
    CodeRange(CodePoint(from, Finite(0)), CodePoint(to.GetOr(from), Unbounded))
  }

  /**
   * `word(line, from, length)`: on row `line`, from column `from` for
   * `length` columns, or to the end of the row when `length` is omitted.
   */
  function Word(line: int, from: int, length: Option<int>): (r: CodeRange)
    ensures r.start == CodePoint(line, Finite(from))
    ensures r.end.row == line
    ensures length.None? ==> r.end.column == Unbounded
    ensures length.Some? ==> r.end.column == Finite(from + length.value)
  {
    var width := if length.Some? then Finite(length.value) else Unbounded;
    CodeRange(CodePoint(line, Finite(from)), CodePoint(line, Add(from, width)))
  }

  /** A `lines` range is ordered exactly when it does not end on a row before it starts. */
  lemma LinesOrdered(from: int, to: Option<int>)
    ensures AtMost(Lines(from, to).start, Lines(from, to).end) <==> (to.None? || from <= to.value)
  {
  }

  /** A `word` range is ordered exactly when its length is not negative. */
  lemma WordOrdered(line: int, from: int, length: Option<int>)
    ensures AtMost(Word(line, from, length).start, Word(line, from, length).end) <==> (length.None? || 0 <= length.value)
  {
  }

  /**
   * `lines(from, to)` spans whole rows: a point with a column from 0 on
   * lies in it exactly when its row is between `from` and `to`.
   */
  lemma LinesSpanRows(from: int, to: Option<int>, p: CodePoint)
    requires ColumnAtMost(Finite(0), p.column)
    ensures Within(p, Lines(from, to)) <==> from <= p.row <= to.GetOr(from)
  {
  }

  /**
   * `word(line, from, length)` covers exactly the columns `from` to
   * `from + length` of its row, or every column from `from` on.
   */
  lemma WordSpansColumns(line: int, from: int, length: Option<int>, p: CodePoint)
    ensures Within(p, Word(line, from, length)) <==>
      p.row == line && ColumnAtMost(Finite(from), p.column) &&
      (length.None? || ColumnAtMost(p.column, Finite(from + length.value)))
  {
  }
}
