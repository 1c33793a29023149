/**
 * Measuring a piece of code into rows and cell widths (`CodeToken` and
 * `stringToToken`).  The canvas measurement
 * `Math.round(context.measureText(line).width / monoWidth)` is the
 * parameter `measure`, the width of one line in monospace cells.
 */
module Tokens {
  import opened Text
  import opened JsValues

  /**
   * A measured piece of code.  `newRows` is the number of line breaks,
   * `endColumn` the length of the text after the last one in UTF-16 code
   * units (JavaScript's `.length`), and the widths
   * are those of the first line, the widest line and the last line.
   */
  datatype CodeToken = CodeToken(
    content: string,
    newRows: int,
    endColumn: int,
    firstWidth: int,
    maxWidth: int,
    lastWidth: int)

  /** The width of the widest of `lines[..n]`. */
  function Widest(lines: seq<string>, n: nat, measure: string -> int): (w: int)
    requires 1 <= n <= |lines|
    ensures forall k :: 0 <= k < n ==> measure(lines[k]) <= w
    ensures exists k :: 0 <= k < n && measure(lines[k]) == w
  {
    if n == 1 then measure(lines[0])
    else
      var w := Widest(lines, n - 1, measure);
      if measure(lines[n - 1]) > w then measure(lines[n - 1]) else w
  }

  /**
   * How many leading lines `stringToToken` takes the maximum width over:
   * all but the last one, or the only one.
   */
  function WidthLines(lineCount: nat): nat
  {
    if lineCount > 1 then lineCount - 1 else 1
  }

  /** The token `stringToToken` builds for `value`. */
  function MeasureString(value: string, measure: string -> int): CodeToken
  {
    var lines := Split(value);
    CodeToken(
      value,
      |lines| - 1,
      Utf16Length(Last(lines)),
      measure(lines[0]),
      Widest(lines, WidthLines(|lines|), measure),
      measure(Last(lines)))
  }

  /** `stringToToken`: split into lines, then one pass for the maximum width. */
  method StringToToken(measure: string -> int, value: string) returns (token: CodeToken)
    ensures token == MeasureString(value, measure)
  {
    var lines := Split(value);
    var lastLine := lines[|lines| - 1];
    var firstWidth := measure(lines[0]);
    var lastWidth := firstWidth;
    var maxWidth := firstWidth;
    var i := 1;
    while i < |lines| - 1
      invariant 1 <= i <= WidthLines(|lines|)
      invariant maxWidth == Widest(lines, i, measure)
    {
      var width := measure(lines[i]);
      if width > maxWidth {
        maxWidth := width;
      }
      i := i + 1;
    }
    if |lines| > 0 {
      lastWidth := measure(lastLine);
    }
    token := CodeToken(value, |lines| - 1, Utf16Length(lastLine), firstWidth, maxWidth, lastWidth);
  }

  /** The content is kept, and `newRows` is the number of newlines in it. */
  lemma TokenRows(value: string, measure: string -> int)
    ensures MeasureString(value, measure).content == value
    ensures MeasureString(value, measure).newRows == Count(value, '\n')
    ensures MeasureString(value, measure).newRows == 0 <==> '\n' !in value
  {
    SplitCount(value);
    CountPositive(value, '\n');
  }

  /**
   * `endColumn` is the UTF-16 length of the text after the last newline: the
   * last `n` characters of `value`, which hold no newline and are all of
   * `value` or follow a newline.
   */
  lemma TokenEndColumn(value: string, measure: string -> int)
    ensures var t := MeasureString(value, measure);
      var n := |Last(Split(value))|;
      n <= |value| &&
      '\n' !in value[|value| - n..] &&
      (n < |value| ==> value[|value| - n - 1] == '\n') &&
      t.endColumn == Utf16Length(value[|value| - n..])
  {
    LastPieceIsTail(value);
    SplitHasNoNewlines(value);
  }

  /**
   * `maxWidth` is the widest of the first line and the interior lines; the
   * last line counts only when it is also the first.
   */
  lemma TokenMaxWidth(value: string, measure: string -> int)
    ensures var t := MeasureString(value, measure);
      var lines := Split(value);
      t.firstWidth <= t.maxWidth &&
      (forall k :: 0 < k < |lines| - 1 ==> measure(lines[k]) <= t.maxWidth) &&
      (t.maxWidth == t.firstWidth || exists k :: 0 < k < |lines| - 1 && measure(lines[k]) == t.maxWidth)
  {
  }

  /** `lastWidth` is the width of the text after the last newline, the text `endColumn` counts. */
  lemma TokenLastWidth(value: string, measure: string -> int)
    ensures var t := MeasureString(value, measure);
      var n := |Last(Split(value))|;
      n <= |value| &&
      t.lastWidth == measure(value[|value| - n..]) &&
      t.endColumn == Utf16Length(value[|value| - n..])
  {
    LastPieceIsTail(value);
  }

  /** A text without a newline is one row whose three widths agree. */
  lemma SingleLineToken(value: string, measure: string -> int)
    requires '\n' !in value
    ensures var t := MeasureString(value, measure);
      t.newRows == 0 && t.endColumn == Utf16Length(value) &&
      t.firstWidth == measure(value) && t.maxWidth == measure(value) && t.lastWidth == measure(value)
  {
    SplitCount(value);
    CountPositive(value, '\n');
    JoinSplit(value);
  }

  /**
   * A character outside the Basic Multilingual Plane counts twice in
   * `endColumn`, as it does in `.length`: U+1F600 alone ends at column 2.
   */
  lemma AstralEndColumn(measure: string -> int)
    ensures MeasureString("\U{1F600}", measure).endColumn == 2
  {
    SingleLineToken("\U{1F600}", measure);
  }

  /** `isCodeToken`: the value has a defined `content`. */
  predicate IsCodeToken(value: Value)
    ensures !value.Object? ==> !IsCodeToken(value)
    ensures value.Object? ==>
      (IsCodeToken(value) <==> "content" in value.props && value.props["content"] != Undefined)
  {
    HasDefined(value, "content")
  }

  /** A token as the JavaScript object the components pass around. */
  function TokenValue(t: CodeToken): (v: Value)
    ensures IsCodeToken(v)
  {
    Object(map[
      "content" := Text(t.content),
      "newRows" := Number(t.newRows as real),
      "endColumn" := Number(t.endColumn as real),
      "firstWidth" := Number(t.firstWidth as real),
      "maxWidth" := Number(t.maxWidth as real),
      "lastWidth" := Number(t.lastWidth as real)])
  }
}
