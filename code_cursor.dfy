/**
 * `CodeCursor`: the stateful walker that measures and draws a scope tree.
 * It keeps a cursor position in cells, the widest row seen, and the
 * offsets of the current fragment in the before and after texts.  The
 * canvas context is replaced by what the walker takes from it: the cell
 * width `measure` of a string, the pixel sizes `monoWidth` and
 * `lineHeight`, and the highlighter lookup; each string the draw pass hands
 * to `fillText` is returned as a `Run`.
 */
module Cursor {
  import opened Wrappers
  import opened Text
  import opened Tokens
  import opened Fragments
  import opened Scopes

  /** A point or size; the cursor is in cells, `getSize` in pixels. */
  datatype Vector2 = Vector2(x: real, y: real)

  /** One `fillText` call of the draw pass: the text and its pixel position. */
  datatype Run = Run(text: string, x: real, y: real)

  /** `r` lies between `a` and `b`. */
  predicate Between(r: real, a: real, b: real)
  {
    (a <= r <= b) || (b <= r <= a)
  }

  /** `map(a, b, t)`: linear interpolation from `a` at 0 to `b` at 1. */
  function Map(a: real, b: real, t: real): (r: real)
    ensures t == 0.0 ==> r == a
    ensures t == 1.0 ==> r == b
    ensures a == b ==> r == a
    ensures 0.0 <= t <= 1.0 ==> Between(r, a, b)
  {
    if 0.0 <= t <= 1.0 then MapBetween(a, b, t); a + (b - a) * t
    else a + (b - a) * t
  }

  /** For `t` in [0, 1] the interpolation stays between its ends. */
  lemma MapBetween(a: real, b: real, t: real)
    requires 0.0 <= t <= 1.0
    ensures Between(a + (b - a) * t, a, b)
  {
    ScaledBetween(b - a, t, (b - a) * t);
  }

  /** A fraction `t` of `d`, the product `m`, lies between 0 and `d`. */
  lemma ScaledBetween(d: real, t: real, m: real)
    requires 0.0 <= t <= 1.0 && m == d * t
    ensures 0.0 <= d ==> 0.0 <= m <= d
    ensures d <= 0.0 ==> d <= m <= 0.0
  {
    assert m - d == d * (t - 1.0);
  }

  function Abs(r: real): real
  {
    if r < 0.0 then -r else r
  }

  function Max(a: real, b: real): real
  {
    if a < b then b else a
  }

  /**
   * `calculateWidth`: the column where `token` ends when it is placed at the
   * cursor; a token that breaks the line ends at its last line's width.
   */
  function CalculateWidth(cursor: Vector2, token: CodeToken): (w: real)
    ensures token.newRows == 0 ==> w == cursor.x + token.lastWidth as real
    ensures token.newRows != 0 ==> w == token.lastWidth as real
  {
    if token.newRows == 0 then cursor.x + token.lastWidth as real else token.lastWidth as real
  }

  /**
   * `calculateMaxWidth`: the widest row once `token` is placed at the
   * cursor, given the widest row `maxWidth` so far.
   */
  function CalculateMaxWidth(cursor: Vector2, maxWidth: real, token: CodeToken): (w: real)
    ensures maxWidth <= w && token.maxWidth as real <= w && cursor.x + token.firstWidth as real <= w
    ensures w == maxWidth || w == token.maxWidth as real || w == cursor.x + token.firstWidth as real
  {
    Max(Max(maxWidth, token.maxWidth as real), cursor.x + token.firstWidth as real)
  }

  /**
   * With one cell per UTF-16 code unit, a measured string placed at the
   * cursor ends its `.length` in cells further on when it has no newline,
   * and at its `endColumn` otherwise.
   */
  lemma WidthIsEndColumn(cursor: Vector2, value: string, measure: string -> int)
    requires forall line :: measure(line) == Utf16Length(line)
    ensures CalculateWidth(cursor, MeasureString(value, measure)) ==
      if '\n' in value then MeasureString(value, measure).endColumn as real
      else cursor.x + Utf16Length(value) as real
  {
    TokenRows(value, measure);
    if '\n' !in value {
      SingleLineToken(value, measure);
    }
  }

  /** The vertical lift of a fragment whose content changes, largest halfway through. */
  function VerticalOffset(fragment: CodeFragment, progress: real): (r: real)
    ensures fragment.before.content == fragment.after.content ==> r == 0.0
    ensures progress == 0.0 || progress == 1.0 ==> r == 0.0
    ensures fragment.before.content != fragment.after.content && progress == 0.5 ==>
      r == Abs((fragment.after.newRows - fragment.before.newRows) as real) / -4.0
  {
    if fragment.before.content != fragment.after.content then
      var mirrored := Abs(progress - 0.5) * 2.0;
      Map(Abs((fragment.after.newRows - fragment.before.newRows) as real) / -4.0, 0.0, mirrored)
    else
      0.0
  }

  /** The token the draw pass renders: the before side until halfway, then the after side. */
  function Shown(fragment: CodeFragment, progress: real): (t: CodeToken)
    ensures t == (if progress < 0.5 then fragment.before else fragment.after)
    ensures fragment.before == fragment.after ==> t == fragment.before
  {
    if progress < 0.5 then fragment.before else fragment.after
  }

  // ---------------------------------------------------------------------
  // The measurement pass
  // ---------------------------------------------------------------------

  /** The part of the walker's state the measurement pass computes. */
  datatype Extent = Extent(cursor: Vector2, maxWidth: real)

  /** One leaf of `measureSize`. */
  function MeasureStep(e: Extent, f: CodeFragment, progress: real): Extent
  {
    var width := Map(CalculateMaxWidth(e.cursor, e.maxWidth, f.before), CalculateMaxWidth(e.cursor, e.maxWidth, f.after), progress);
    var x := Map(CalculateWidth(e.cursor, f.before), CalculateWidth(e.cursor, f.after), progress);
    var y := if e.cursor.y == 0.0 then 1.0 else e.cursor.y;
    Extent(
      Vector2(x, y + Map(f.before.newRows as real, f.after.newRows as real, progress)),
      if width > e.maxWidth then width else e.maxWidth)
  }

  /** The state after `measureSize` has visited the first `n` fragments of `scope`. */
  function MeasuredUpTo(e: Extent, scope: CodeScope, n: nat, measure: string -> int): Extent
    requires n <= |scope.fragments|
    decreases scope, n
  {
    if n == 0 then e
    else
      var e' := MeasuredUpTo(e, scope, n - 1, measure);
      match scope.fragments[n - 1]
      case Nested(inner) => Measured(e', inner, measure)
      case Leaf(possible) => MeasureStep(e', ParseCodeFragment(possible, measure), scope.progress)
  }

  /** The state after `measureSize(scope)`. */
  function Measured(e: Extent, scope: CodeScope, measure: string -> int): Extent
    decreases scope, |scope.fragments| + 1
  {
    MeasuredUpTo(e, scope, |scope.fragments|, measure)
  }

  /** A static fragment measures the same at every progress. */
  lemma StaticMeasureStep(e: Extent, token: CodeToken, p: real, q: real)
    ensures MeasureStep(e, CodeFragment(token, token), p) == MeasureStep(e, CodeFragment(token, token), q)
  {
  }

  /**
   * At progress 0 a leaf measures as its before token alone, and at
   * progress 1 as its after token alone.
   */
  lemma MeasureStepEnds(e: Extent, f: CodeFragment, p: real)
    ensures MeasureStep(e, f, 0.0) == MeasureStep(e, CodeFragment(f.before, f.before), p)
    ensures MeasureStep(e, f, 1.0) == MeasureStep(e, CodeFragment(f.after, f.after), p)
  {
  }

  /**
   * A leaf never narrows the widest row.  From row 0 or a row from 1 on,
   * with both sides' row counts non-negative and the progress in [0, 1],
   * it leaves the cursor on row 1 or further and no higher than it was,
   * advanced by the blended row count from row 1 if it was on row 0.
   */
  lemma MeasureStepRows(e: Extent, f: CodeFragment, p: real)
    requires 0.0 <= p <= 1.0 && 0 <= f.before.newRows && 0 <= f.after.newRows
    requires e.cursor.y == 0.0 || e.cursor.y >= 1.0
    ensures MeasureStep(e, f, p).maxWidth >= e.maxWidth
    ensures MeasureStep(e, f, p).cursor.y >= 1.0
    ensures MeasureStep(e, f, p).cursor.y >= e.cursor.y
    ensures MeasureStep(e, f, p).cursor.y - Map(f.before.newRows as real, f.after.newRows as real, p) ==
      if e.cursor.y == 0.0 then 1.0 else e.cursor.y
  {
    var rows := Map(f.before.newRows as real, f.after.newRows as real, p);
    var y := if e.cursor.y == 0.0 then 1.0 else e.cursor.y;
    assert MeasureStep(e, f, p).cursor.y == y + rows;
    assert 0.0 <= rows by {
      assert Between(rows, f.before.newRows as real, f.after.newRows as real);
    }
  }

  /** `measureSize` never narrows the widest row. */
  lemma {:induction false} MeasuredUpToGrows(e: Extent, scope: CodeScope, n: nat, measure: string -> int)
    requires n <= |scope.fragments|
    ensures MeasuredUpTo(e, scope, n, measure).maxWidth >= e.maxWidth
    decreases scope, n
  {
    if n > 0 {
      MeasuredUpToGrows(e, scope, n - 1, measure);
      var e' := MeasuredUpTo(e, scope, n - 1, measure);
      match scope.fragments[n - 1]
      case Nested(inner) =>
        MeasuredUpToGrows(e', inner, |inner.fragments|, measure);
      case Leaf(possible) =>
    }
  }

  /** `measureSize(scope)` never narrows the widest row. */
  lemma MeasuredGrows(e: Extent, scope: CodeScope, measure: string -> int)
    ensures Measured(e, scope, measure).maxWidth >= e.maxWidth
  {
    MeasuredUpToGrows(e, scope, |scope.fragments|, measure);
  }

  // ---------------------------------------------------------------------
  // The draw pass
  // ---------------------------------------------------------------------

  /** One leaf of `drawScope`: the cursor moves down by the blended rows and on to the blended end column. */
  function DrawStep(cursor: Vector2, f: CodeFragment, progress: real): Vector2
  {
    Vector2(
      Map(CalculateWidth(cursor, f.before), CalculateWidth(cursor, f.after), progress),
      cursor.y + Map(f.before.newRows as real, f.after.newRows as real, progress))
  }

  /** The cursor after `drawScope` has visited the first `n` fragments of `scope`. */
  function DrawnUpTo(cursor: Vector2, scope: CodeScope, n: nat, measure: string -> int): Vector2
    requires n <= |scope.fragments|
    decreases scope, n
  {
    if n == 0 then cursor
    else
      var c := DrawnUpTo(cursor, scope, n - 1, measure);
      match scope.fragments[n - 1]
      case Nested(inner) => Drawn(c, inner, measure)
      case Leaf(possible) => DrawStep(c, ParseCodeFragment(possible, measure), scope.progress)
  }

  /** The cursor after `drawScope(scope)`. */
  function Drawn(cursor: Vector2, scope: CodeScope, measure: string -> int): Vector2
    decreases scope, |scope.fragments| + 1
  {
    DrawnUpTo(cursor, scope, |scope.fragments|, measure)
  }

  /** At progress 0 a leaf moves the cursor as its before token alone, and at progress 1 as its after token alone. */
  lemma DrawStepEnds(cursor: Vector2, f: CodeFragment, p: real)
    ensures DrawStep(cursor, f, 0.0) == DrawStep(cursor, CodeFragment(f.before, f.before), p)
    ensures DrawStep(cursor, f, 1.0) == DrawStep(cursor, CodeFragment(f.after, f.after), p)
  {
  }

  /**
   * The draw pass ends every prefix of the tree on the column that the
   * measurement pass computed for it, from the same starting column.
   */
  lemma {:induction false} ColumnsAgreeUpTo(e: Extent, cursor: Vector2, scope: CodeScope, n: nat, measure: string -> int)
    requires n <= |scope.fragments| && e.cursor.x == cursor.x
    ensures MeasuredUpTo(e, scope, n, measure).cursor.x == DrawnUpTo(cursor, scope, n, measure).x
    decreases scope, n
  {
    if n > 0 {
      ColumnsAgreeUpTo(e, cursor, scope, n - 1, measure);
      var e' := MeasuredUpTo(e, scope, n - 1, measure);
      var c := DrawnUpTo(cursor, scope, n - 1, measure);
      match scope.fragments[n - 1]
      case Nested(inner) =>
        ColumnsAgreeUpTo(e', c, inner, |inner.fragments|, measure);
      case Leaf(possible) =>
    }
  }

  /** `measureSize` and `drawScope` end on the same column. */
  lemma ColumnsAgree(e: Extent, cursor: Vector2, scope: CodeScope, measure: string -> int)
    requires e.cursor.x == cursor.x
    ensures Measured(e, scope, measure).cursor.x == Drawn(cursor, scope, measure).x
  {
    ColumnsAgreeUpTo(e, cursor, scope, |scope.fragments|, measure);
  }

  // ---------------------------------------------------------------------
  // Runs of drawToken
  // ---------------------------------------------------------------------

  /** The end of the line that position `i` is on: the next newline after `i`, or the end. */
  function NextBreak(content: string, i: nat): (r: nat)
    requires i < |content|
    ensures i < r <= |content|
    ensures forall j :: i < j < r ==> content[j] != '\n'
    ensures r < |content| ==> content[r] == '\n'
    decreases |content| - i
  {
    if i + 1 == |content| || content[i + 1] == '\n' then i + 1 else NextBreak(content, i + 1)
  }

  /**
   * Where the run starting at `i` ends: a highlight with `skipAhead > 1`
   * takes that many characters (fewer at the end of the text), any other
   * highlight one character, and without a highlight the run goes up to but
   * not including the next newline.
   */
  function RunEnd(content: string, i: nat, skipAhead: Option<int>): (r: nat)
    requires i < |content|
    ensures i < r <= |content|
  {
    match skipAhead
    case Some(k) => if k > 1 then (if i + k < |content| then i + k else |content|) else i + 1
    case None => NextBreak(content, i)
  }

  /** Where run `k` ends. */
  function End(runs: seq<Run>, starts: seq<nat>, k: nat): nat
    requires |starts| == |runs| && k < |runs|
  {
    starts[k] + |runs[k].text|
  }

  /** Where the gap of skipped newlines before run `k` starts (`k == |runs|`: the gap after the last run). */
  function GapStart(runs: seq<Run>, starts: seq<nat>, k: nat): nat
    requires |starts| == |runs| && k <= |runs|
  {
    if k == 0 then 0 else End(runs, starts, k - 1)
  }

  /** Where the gap before run `k` ends. */
  function GapEnd(starts: seq<nat>, k: nat, upTo: nat): nat
    requires k <= |starts|
  {
    if k == |starts| then upTo else starts[k]
  }

  /**
   * The runs cover `content[..upTo]` in order, each a non-empty slice that
   * starts on a character other than a newline, and everything between
   * them is newlines.
   */
  ghost predicate Tiled(content: string, upTo: nat, runs: seq<Run>, starts: seq<nat>)
  {
    upTo <= |content| && |starts| == |runs| &&
    (forall k :: 0 <= k < |runs| ==> RunTiled(content, upTo, runs, starts, k)) &&
    (forall k :: 0 <= k <= |runs| ==> GapTiled(content, upTo, runs, starts, k))
  }

  /** Run `k` is the slice of `content[..upTo]` it starts at, and it does not start on a newline. */
  ghost predicate RunTiled(content: string, upTo: nat, runs: seq<Run>, starts: seq<nat>, k: nat)
    requires upTo <= |content| && |starts| == |runs| && k < |runs|
  {
    starts[k] < End(runs, starts, k) <= upTo &&
    runs[k].text == content[starts[k]..End(runs, starts, k)] &&
    content[starts[k]] != '\n'
  }

  /** The gap before run `k` (or after the last run) holds only newlines. */
  ghost predicate GapTiled(content: string, upTo: nat, runs: seq<Run>, starts: seq<nat>, k: nat)
    requires upTo <= |content| && |starts| == |runs| && k <= |runs|
  {
    GapStart(runs, starts, k) <= GapEnd(starts, k, upTo) <= upTo &&
    forall j :: GapStart(runs, starts, k) <= j < GapEnd(starts, k, upTo) ==> content[j] == '\n'
  }

  /**
   * Each run has the length that the highlight at its first character
   * selects; `base` is the offset of the content in the text of the shown
   * side.
   */
  ghost predicate Selected(content: string, runs: seq<Run>, starts: seq<nat>,
                           highlight: (int, bool) -> Option<int>, base: int, after: bool)
    requires |starts| == |runs|
  {
    forall k :: 0 <= k < |runs| ==> SelectedAt(content, runs, starts, highlight, base, after, k)
  }

  /** Run `k` has the length that the highlight at its first character selects. */
  ghost predicate SelectedAt(content: string, runs: seq<Run>, starts: seq<nat>,
                             highlight: (int, bool) -> Option<int>, base: int, after: bool, k: nat)
    requires |starts| == |runs| && k < |runs|
  {
    starts[k] < |content| ==>
      End(runs, starts, k) == RunEnd(content, starts[k], highlight(base + starts[k], after))
  }

  /**
   * Where the runs are drawn.  `rows[k]` counts the newlines skipped before
   * run `k`; `columns[k]` is 0 right after a skipped newline, `offset.x` for
   * a first run on the first row, and otherwise the column where the run
   * before ended.
   */
  ghost predicate Placed(runs: seq<Run>, starts: seq<nat>, rows: seq<int>, columns: seq<real>,
                         offset: Vector2, monoWidth: real, lineHeight: real, measure: string -> int)
    requires |starts| == |runs|
  {
    |rows| == |runs| && |columns| == |runs| &&
    forall k :: 0 <= k < |runs| ==> PlacedAt(runs, starts, rows, columns, k, offset, monoWidth, lineHeight, measure)
  }

  /** Where run `k` is drawn (see `Placed`). */
  ghost predicate PlacedAt(runs: seq<Run>, starts: seq<nat>, rows: seq<int>, columns: seq<real>, k: nat,
                           offset: Vector2, monoWidth: real, lineHeight: real, measure: string -> int)
    requires |starts| == |runs| && |rows| == |runs| && |columns| == |runs| && k < |runs|
  {
    rows[k] == (if k == 0 then 0 else rows[k - 1]) + (starts[k] - GapStart(runs, starts, k)) &&
    columns[k] == (if starts[k] > GapStart(runs, starts, k) then 0.0
                   else if k == 0 then offset.x
                   else columns[k - 1] + measure(runs[k - 1].text) as real) &&
    runs[k].x == columns[k] * monoWidth &&
    runs[k].y == (offset.y + rows[k] as real) * lineHeight
  }

  /** Skipping a newline extends the gap after the last run. */
  lemma TiledSkip(content: string, i: nat, runs: seq<Run>, starts: seq<nat>)
    requires Tiled(content, i, runs, starts) && i < |content| && content[i] == '\n'
    ensures Tiled(content, i + 1, runs, starts)
  {
    var upTo := i + 1;
    forall k | 0 <= k < |runs| ensures RunTiled(content, upTo, runs, starts, k) {
      assert RunTiled(content, i, runs, starts, k);
    }
    forall k | 0 <= k <= |runs| ensures GapTiled(content, upTo, runs, starts, k) {
      assert GapTiled(content, i, runs, starts, k);
      if k < |runs| {
        assert GapEnd(starts, k, upTo) == GapEnd(starts, k, i);
      }
    }
  }

  /** A run from `i` to `end` that starts on a character other than a newline extends the tiling to `end`. */
  lemma TiledAppend(content: string, i: nat, end: nat, runs: seq<Run>, starts: seq<nat>, run: Run)
    requires Tiled(content, i, runs, starts)
    requires i < end <= |content| && run.text == content[i..end] && content[i] != '\n'
    ensures Tiled(content, end, runs + [run], starts + [i])
  {
    var runs', starts' := runs + [run], starts + [i];
    assert End(runs', starts', |runs|) == end;
    forall k | 0 <= k < |runs'| ensures RunTiled(content, end, runs', starts', k) {
      if k < |runs| {
        assert RunTiled(content, i, runs, starts, k);
        assert runs'[k] == runs[k] && starts'[k] == starts[k];
        assert End(runs', starts', k) == End(runs, starts, k);
      }
    }
    forall k | 0 <= k <= |runs'| ensures GapTiled(content, end, runs', starts', k) {
      if k <= |runs| {
        assert GapTiled(content, i, runs, starts, k);
        assert GapStart(runs', starts', k) == GapStart(runs, starts, k) by {
          if k > 0 {
            assert End(runs', starts', k - 1) == End(runs, starts, k - 1);
          }
        }
        assert GapEnd(starts', k, end) == GapEnd(starts, k, i);
      }
    }
  }

  /** A run whose length the highlight at `i` selects keeps every run selected. */
  lemma SelectedAppend(content: string, i: nat, runs: seq<Run>, starts: seq<nat>, run: Run,
                       highlight: (int, bool) -> Option<int>, base: int, after: bool)
    requires |starts| == |runs| && Selected(content, runs, starts, highlight, base, after)
    requires i < |content| && i + |run.text| == RunEnd(content, i, highlight(base + i, after))
    ensures Selected(content, runs + [run], starts + [i], highlight, base, after)
  {
    var runs', starts' := runs + [run], starts + [i];
    forall k | 0 <= k < |runs'| ensures SelectedAt(content, runs', starts', highlight, base, after, k) {
      if k < |runs| {
        assert SelectedAt(content, runs, starts, highlight, base, after, k);
        assert starts'[k] == starts[k] && End(runs', starts', k) == End(runs, starts, k);
      }
    }
  }

  /** A run drawn at the row of the newlines skipped so far and at the current column keeps every run placed. */
  lemma PlacedAppend(runs: seq<Run>, starts: seq<nat>, rows: seq<int>, columns: seq<real>,
                     run: Run, i: nat, row: int, column: real,
                     offset: Vector2, monoWidth: real, lineHeight: real, measure: string -> int)
    requires |starts| == |runs| && Placed(runs, starts, rows, columns, offset, monoWidth, lineHeight, measure)
    requires GapStart(runs, starts, |runs|) <= i
    requires row == (if runs == [] then 0 else rows[|runs| - 1]) + (i - GapStart(runs, starts, |runs|))
    requires column == (if i > GapStart(runs, starts, |runs|) then 0.0
                        else if runs == [] then offset.x
                        else columns[|runs| - 1] + measure(runs[|runs| - 1].text) as real)
    requires run.x == column * monoWidth && run.y == (offset.y + row as real) * lineHeight
    ensures Placed(runs + [run], starts + [i], rows + [row], columns + [column], offset, monoWidth, lineHeight, measure)
  {
    var runs', starts', rows', columns' := runs + [run], starts + [i], rows + [row], columns + [column];
    forall k | 0 <= k <= |runs| ensures GapStart(runs', starts', k) == GapStart(runs, starts, k) {
      if k > 0 {
        assert End(runs', starts', k - 1) == End(runs, starts, k - 1);
      }
    }
    forall k | 0 <= k < |runs'|
      ensures PlacedAt(runs', starts', rows', columns', k, offset, monoWidth, lineHeight, measure)
    {
      if k < |runs| {
        assert PlacedAt(runs, starts, rows, columns, k, offset, monoWidth, lineHeight, measure);
        assert runs'[k] == runs[k] && starts'[k] == starts[k] && rows'[k] == rows[k] && columns'[k] == columns[k];
        if k > 0 {
          assert runs'[k - 1] == runs[k - 1] && rows'[k - 1] == rows[k - 1] && columns'[k - 1] == columns[k - 1];
        }
      }
    }
  }

  /**
   * The state of `drawToken` after the first `i` characters: the runs so far
   * are tiled, selected and placed, `y` is the row of the last run plus the
   * newlines skipped since, and the pen column `offsetX + width` is where
   * the next run goes.
   */
  ghost predicate Drawing(content: string, i: nat, runs: seq<Run>, starts: seq<nat>, rows: seq<int>, columns: seq<real>,
                          y: int, offsetX: real, width: int,
                          highlight: (int, bool) -> Option<int>, base: int, after: bool,
                          offset: Vector2, monoWidth: real, lineHeight: real, measure: string -> int)
  {
    Tiled(content, i, runs, starts) &&
    Selected(content, runs, starts, highlight, base, after) &&
    Placed(runs, starts, rows, columns, offset, monoWidth, lineHeight, measure) &&
    y == (if runs == [] then 0 else rows[|runs| - 1]) + (i - GapStart(runs, starts, |runs|)) &&
    offsetX + width as real == (if i > GapStart(runs, starts, |runs|) then 0.0
                                else if runs == [] then offset.x
                                else columns[|runs| - 1] + measure(runs[|runs| - 1].text) as real) &&
    (i > GapStart(runs, starts, |runs|) ==> offsetX == 0.0 && width == 0)
  }

  /** Skipping a newline moves the pen to the start of the next row. */
  lemma DrawingSkip(content: string, i: nat, runs: seq<Run>, starts: seq<nat>, rows: seq<int>, columns: seq<real>,
                    y: int, offsetX: real, width: int,
                    highlight: (int, bool) -> Option<int>, base: int, after: bool,
                    offset: Vector2, monoWidth: real, lineHeight: real, measure: string -> int)
    requires Drawing(content, i, runs, starts, rows, columns, y, offsetX, width, highlight, base, after,
                     offset, monoWidth, lineHeight, measure)
    requires i < |content| && content[i] == '\n'
    ensures Drawing(content, i + 1, runs, starts, rows, columns, y + 1, 0.0, 0, highlight, base, after,
                    offset, monoWidth, lineHeight, measure)
  {
    assert GapTiled(content, i, runs, starts, |runs|);
    TiledSkip(content, i, runs, starts);
  }

  /** Drawing the run that starts at `i` at the pen position moves the pen past it. */
  lemma DrawingAppend(content: string, i: nat, runs: seq<Run>, starts: seq<nat>, rows: seq<int>, columns: seq<real>,
                      y: int, offsetX: real, width: int, run: Run,
                      highlight: (int, bool) -> Option<int>, base: int, after: bool,
                      offset: Vector2, monoWidth: real, lineHeight: real, measure: string -> int)
    requires Drawing(content, i, runs, starts, rows, columns, y, offsetX, width, highlight, base, after,
                     offset, monoWidth, lineHeight, measure)
    requires i < |content| && content[i] != '\n'
    requires run.text == content[i..RunEnd(content, i, highlight(base + i, after))]
    requires run.x == (offsetX + width as real) * monoWidth && run.y == (offset.y + y as real) * lineHeight
    ensures Drawing(content, i + |run.text|, runs + [run], starts + [i], rows + [y], columns + [offsetX + width as real],
                    y, offsetX, width + measure(run.text), highlight, base, after, offset, monoWidth, lineHeight, measure)
  {
    var text := run.text;
    var end := RunEnd(content, i, highlight(base + i, after));
    assert GapTiled(content, i, runs, starts, |runs|);
    TiledAppend(content, i, end, runs, starts, run);
    SelectedAppend(content, i, runs, starts, run, highlight, base, after);
    PlacedAppend(runs, starts, rows, columns, run, i, y, offsetX + width as real,
      offset, monoWidth, lineHeight, measure);
    var runs', starts' := runs + [run], starts + [i];
    assert End(runs', starts', |runs|) == i + |text|;
    assert GapStart(runs', starts', |runs'|) == i + |text|;
  }

  /** The run starting at `i`, as `drawToken` collects it. */
  method TakeRun(content: string, i: nat, skipAhead: Option<int>) returns (run: string)
    requires i < |content|
    ensures run == content[i..RunEnd(content, i, skipAhead)]
  {
    run := [content[i]];
    if skipAhead.Some? {
      if skipAhead.value > 1 {
        var end := if i + skipAhead.value < |content| then i + skipAhead.value else |content|;
        run := content[i..end];
      }
    } else {
      var j := i;
      while j < |content| - 1 && content[j + 1] != '\n'
        invariant i <= j < |content|
        invariant run == content[i..j + 1]
        invariant forall m :: i < m <= j ==> content[m] != '\n'
      {
        j := j + 1;
        run := run + [content[j]];
      }
    }
  }

  // ---------------------------------------------------------------------
  // The walker
  // ---------------------------------------------------------------------

  class CodeCursor {
    /** The position in cells: column `x` and row `y`. */
    var cursor: Vector2
    /** Offset of the current fragment in the text before the transition. */
    var beforeIndex: int
    /** Offset of the current fragment in the text after the transition. */
    var afterIndex: int
    /** The width in cells of a string, as the context measures it. */
    var measure: string -> int
    /** The pixel width of one cell. */
    var monoWidth: real
    /** The widest row seen, in cells. */
    var maxWidth: real
    /** The pixel height of a row. */
    var lineHeight: real
    /** The highlighter's `skipAhead` at an offset of the before (false) or after (true) text; `None` for no highlight. */
    var highlight: (int, bool) -> Option<int>

    /** A cursor at the origin with both offsets at 0, to be `Reset` before a pass. */
    constructor ()
      ensures cursor == Vector2(0.0, 0.0) && beforeIndex == 0 && afterIndex == 0
    {
      cursor := Vector2(0.0, 0.0);
      beforeIndex := 0;
      afterIndex := 0;
      measure := _ => 0;
      monoWidth := 0.0;
      maxWidth := 0.0;
      lineHeight := 0.0;
      highlight := (_, _) => None;
    }

    /** `reset`: take the context's measurements and start at the origin with nothing measured. */
    method Reset(measure: string -> int, monoWidth: real, lineHeight: real, highlight: (int, bool) -> Option<int>)
      modifies this
      ensures cursor == Vector2(0.0, 0.0)
      ensures beforeIndex == 0 && afterIndex == 0 && maxWidth == 0.0
      ensures this.measure == measure && this.monoWidth == monoWidth
      ensures this.lineHeight == lineHeight && this.highlight == highlight
    {
      this.measure := measure;
      this.monoWidth := monoWidth;
      this.lineHeight := lineHeight;
      cursor := Vector2(0.0, 0.0);
      beforeIndex := 0;
      afterIndex := 0;
      maxWidth := 0.0;
      this.highlight := highlight;
    }

    /** `getSize`: the widest row and the row count, in pixels. */
    function GetSize(): (size: Vector2)
      reads this
      ensures size == Vector2(maxWidth * monoWidth, cursor.y * lineHeight)
    {
      Vector2(maxWidth * monoWidth, cursor.y * lineHeight)
    }

    /**
     * `measureSize`: walk the tree, blending each leaf's widths and rows by
     * its scope's progress; only the cursor and the widest row change.
     */
    method MeasureSize(scope: CodeScope)
      modifies this
      ensures Extent(cursor, maxWidth) == Measured(old(Extent(cursor, maxWidth)), scope, measure)
      ensures beforeIndex == old(beforeIndex) && afterIndex == old(afterIndex)
      ensures measure == old(measure) && monoWidth == old(monoWidth) && lineHeight == old(lineHeight)
      ensures highlight == old(highlight)
      decreases scope
    {
      ghost var start := Extent(cursor, maxWidth);
      var progress := scope.progress;
      for i := 0 to |scope.fragments|
        invariant Extent(cursor, maxWidth) == MeasuredUpTo(start, scope, i, measure)
        invariant beforeIndex == old(beforeIndex) && afterIndex == old(afterIndex)
        invariant measure == old(measure) && monoWidth == old(monoWidth) && lineHeight == old(lineHeight)
        invariant highlight == old(highlight)
      {
        match scope.fragments[i]
        case Nested(inner) =>
          MeasureSize(inner);
        case Leaf(possible) =>
          var fragment := ParseCodeFragment(possible, measure);
          var beforeMaxWidth := CalculateMaxWidth(cursor, maxWidth, fragment.before);
          var afterMaxWidth := CalculateMaxWidth(cursor, maxWidth, fragment.after);
          var width := Map(beforeMaxWidth, afterMaxWidth, progress);
          if width > maxWidth {
            maxWidth := width;
          }
          var beforeEnd := CalculateWidth(cursor, fragment.before);
          var afterEnd := CalculateWidth(cursor, fragment.after);
          cursor := cursor.(x := Map(beforeEnd, afterEnd, progress));
          if cursor.y == 0.0 {
            cursor := cursor.(y := 1.0);
          }
          cursor := cursor.(y := cursor.y + Map(fragment.before.newRows as real, fragment.after.newRows as real, progress));
      }
    }

    /**
     * `drawScope`: walk the tree, drawing each leaf and advancing the
     * offsets by the lengths of its before and after contents, so that they
     * grow by the lengths of the before and after texts of the whole tree.
     */
    method DrawScope(scope: CodeScope)
      modifies this
      ensures beforeIndex == old(beforeIndex) + |Resolved(scope, Fixed(false))|
      ensures afterIndex == old(afterIndex) + |Resolved(scope, Fixed(true))|
      ensures cursor == Drawn(old(cursor), scope, measure)
      ensures maxWidth == old(maxWidth)
      ensures measure == old(measure) && monoWidth == old(monoWidth) && lineHeight == old(lineHeight)
      ensures highlight == old(highlight)
      decreases scope
    {
      ghost var start := cursor;
      var progress := scope.progress;
      for i := 0 to |scope.fragments|
        invariant beforeIndex == old(beforeIndex) + |ResolvedUpTo(scope, i, Fixed(false))|
        invariant afterIndex == old(afterIndex) + |ResolvedUpTo(scope, i, Fixed(true))|
        invariant cursor == DrawnUpTo(start, scope, i, measure)
        invariant maxWidth == old(maxWidth)
        invariant measure == old(measure) && monoWidth == old(monoWidth) && lineHeight == old(lineHeight)
        invariant highlight == old(highlight)
      {
        match scope.fragments[i]
        case Nested(inner) =>
          DrawScope(inner);
        case Leaf(possible) =>
          DrawLeaf(possible, progress);
      }
    }

    /** One leaf of `drawScope`: draw the shown side, then advance both offsets and the cursor. */
    method DrawLeaf(possible: PossibleCodeFragment, progress: real)
      modifies this
      ensures beforeIndex == old(beforeIndex) + |ParseCodeFragment(possible, measure).before.content|
      ensures afterIndex == old(afterIndex) + |ParseCodeFragment(possible, measure).after.content|
      ensures cursor == DrawStep(old(cursor), ParseCodeFragment(possible, measure), progress)
      ensures maxWidth == old(maxWidth)
      ensures measure == old(measure) && monoWidth == old(monoWidth) && lineHeight == old(lineHeight)
      ensures highlight == old(highlight)
    {
      var fragment := ParseCodeFragment(possible, measure);
      var offsetY := VerticalOffset(fragment, progress);
      var runs, starts, rows, columns := DrawToken(fragment, progress, Vector2(cursor.x, cursor.y + offsetY));
      beforeIndex := beforeIndex + |fragment.before.content|;
      afterIndex := afterIndex + |fragment.after.content|;
      cursor := cursor.(y := cursor.y + Map(fragment.before.newRows as real, fragment.after.newRows as real, progress));
      var beforeEnd := CalculateWidth(cursor, fragment.before);
      var afterEnd := CalculateWidth(cursor, fragment.after);
      cursor := cursor.(x := Map(beforeEnd, afterEnd, progress));
    }

    /**
     * `drawToken`: the runs handed to `fillText` for the shown side of
     * `fragment`.  They tile its content apart from the skipped newlines,
     * each run's length is selected by the highlight at its start, and each
     * is placed on the row of the newlines skipped so far and at the column
     * where the row's text so far ends.
     */
    method DrawToken(fragment: CodeFragment, progress: real, offset: Vector2)
      returns (runs: seq<Run>, ghost starts: seq<nat>, ghost rows: seq<int>, ghost columns: seq<real>)
      ensures var content := Shown(fragment, progress).content;
        Tiled(content, |content|, runs, starts) &&
        Selected(content, runs, starts, highlight, if progress < 0.5 then beforeIndex else afterIndex, progress >= 0.5) &&
        Placed(runs, starts, rows, columns, offset, monoWidth, lineHeight, measure)
    {
      var code := if progress < 0.5 then fragment.before else fragment.after;
      var content := code.content;
      var base := if progress < 0.5 then beforeIndex else afterIndex;
      var after := progress >= 0.5;
      var offsetX := offset.x;
      var width := 0;
      var y := 0;
      runs, starts, rows, columns := [], [], [], [];
      var i := 0;
      while i < |content|
        invariant i <= |content|
        invariant Drawing(content, i, runs, starts, rows, columns, y, offsetX, width, highlight, base, after,
                          offset, monoWidth, lineHeight, measure)
      {
        if content[i] == '\n' {
          DrawingSkip(content, i, runs, starts, rows, columns, y, offsetX, width, highlight, base, after,
            offset, monoWidth, lineHeight, measure);
          y := y + 1;
          offsetX := 0.0;
          width := 0;
          i := i + 1;
        } else {
          runs, starts, rows, columns, width, i :=
            DrawRun(content, base, after, offset, runs, starts, rows, columns, y, offsetX, width, i);
        }
      }
    }

    /** One run of `drawToken`: the text that the highlight at `i` selects, drawn at the pen position. */
    method DrawRun(content: string, base: int, after: bool, offset: Vector2,
                   runs: seq<Run>, ghost starts: seq<nat>, ghost rows: seq<int>, ghost columns: seq<real>,
                   y: int, offsetX: real, width: int, i: nat)
      returns (runs': seq<Run>, ghost starts': seq<nat>, ghost rows': seq<int>, ghost columns': seq<real>,
               width': int, i': nat)
      requires i < |content| && content[i] != '\n'
      requires Drawing(content, i, runs, starts, rows, columns, y, offsetX, width, highlight, base, after,
                       offset, monoWidth, lineHeight, measure)
      ensures i < i' <= |content|
      ensures Drawing(content, i', runs', starts', rows', columns', y, offsetX, width', highlight, base, after,
                      offset, monoWidth, lineHeight, measure)
    {
      var text := TakeRun(content, i, highlight(base + i, after));
      var run := Run(text, (offsetX + width as real) * monoWidth, (offset.y + y as real) * lineHeight);
      DrawingAppend(content, i, runs, starts, rows, columns, y, offsetX, width, run, highlight, base, after,
        offset, monoWidth, lineHeight, measure);
      runs', starts', rows', columns' := runs + [run], starts + [i], rows + [y], columns + [offsetX + width as real];
      width', i' := width + measure(text), i + |text|;
    }
  }
}
