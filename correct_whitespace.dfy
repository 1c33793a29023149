// `correctWhitespace` of src/correctWhitespace.ts: strip the indentation
// that a template literal's lines have in common.
//
// The text is split at '\n'; a first line and then a last line that hold
// only whitespace are dropped; the indent is the shortest run of leading
// whitespace among the lines left; each line that starts with that many
// spaces loses them; and the lines are joined with '\n' again.

module Whitespace {
  import opened Text

  /** JavaScript's `\s`: the ASCII controls 9 to 13, the space, and the Unicode space separators. */
  predicate IsWhitespace(c: char)
  {
    var n := c as int;
    (9 <= n <= 13) || n == 0x20 || n == 0xA0 || n == 0x1680 || (0x2000 <= n <= 0x200A) ||
    n == 0x2028 || n == 0x2029 || n == 0x202F || n == 0x205F || n == 0x3000 || n == 0xFEFF
  }

  /** `/^\s*$/`: the line holds only whitespace. */
  predicate Blank(line: string)
  {
    forall i :: 0 <= i < |line| ==> IsWhitespace(line[i])
  }

  /** The length of the match of `/^\s+/`, or 0 when there is none. */
  function Leading(line: string): (r: nat)
    ensures r <= |line|
    ensures forall i :: 0 <= i < r ==> IsWhitespace(line[i])
    ensures r < |line| ==> !IsWhitespace(line[r])
  {
    if |line| > 0 && IsWhitespace(line[0]) then
      assert forall i :: 1 <= i < |line| ==> line[i] == line[1..][i - 1];
      1 + Leading(line[1..])
    else 0
  }

  /** `Math.min` of the leading whitespace of non-empty `lines`. */
  function Indent(lines: seq<string>): (r: nat)
    requires |lines| > 0
    ensures forall k :: 0 <= k < |lines| ==> r <= Leading(lines[k])
    ensures exists k :: 0 <= k < |lines| && r == Leading(lines[k])
  {
    if |lines| == 1 then Leading(lines[0])
    else
      var rest := Indent(lines[1..]);
      assert forall k :: 1 <= k < |lines| ==> lines[k] == lines[1..][k - 1];
      if Leading(lines[0]) <= rest then Leading(lines[0]) else rest
  }

  /** The line starts with `n` spaces. */
  predicate StartsWithSpaces(line: string, n: nat)
  {
    n <= |line| && forall i :: 0 <= i < n ==> line[i] == ' '
  }

  /** `line.replace(new RegExp('^' + ' '.repeat(indent)), '')`. */
  function Dedent(line: string, indent: nat): (r: string)
    ensures StartsWithSpaces(line, indent) ==> line == line[..indent] + r
    ensures !StartsWithSpaces(line, indent) ==> r == line
  {
    if StartsWithSpaces(line, indent) then line[indent..] else line
  }

  /** `lines.shift()` when the first line is blank. */
  function DropBlankFirst(lines: seq<string>): seq<string>
    requires |lines| > 0
  {
    if Blank(lines[0]) then lines[1..] else lines
  }

  /** `lines.pop()` when the last line is blank. */
  function DropBlankLast(lines: seq<string>): seq<string>
    requires |lines| > 0
  {
    if Blank(Last(lines)) then lines[..|lines| - 1] else lines
  }

  /**
   * The source throws unless a line survives both drops: with no line left
   * after the first drop, the last line is `undefined` and has no `match`;
   * with none left after the second, the indent is `Infinity` and
   * `' '.repeat` rejects it.
   */
  predicate Correctable(str: string)
  {
    var lines := DropBlankFirst(Split(str));
    |lines| > 0 && |DropBlankLast(lines)| > 0
  }

  /** The lines left after dropping the blank first and last lines. */
  function Survivors(str: string): (lines: seq<string>)
    requires Correctable(str)
    ensures |lines| > 0
  {
    DropBlankLast(DropBlankFirst(Split(str)))
  }

  /** The surviving lines, each dedented by the common indent. */
  function Dedented(lines: seq<string>): (r: seq<string>)
    requires |lines| > 0
    ensures |r| == |lines|
  {
    seq(|lines|, i requires 0 <= i < |lines| => Dedent(lines[i], Indent(lines)))
  }

  /**
   * `correctWhitespace(str)`: the output's lines are the surviving input
   * lines, each dedented by their common indent.
   */
  function CorrectWhitespace(str: string): (r: string)
    requires Correctable(str)
    ensures Split(r) == Dedented(Survivors(str))
  {
    DedentedHasNoNewlines(str);
    SplitJoin(Dedented(Survivors(str)));
    Join(Dedented(Survivors(str)))
  }

  /** Dedenting removes characters only, so the dedented survivors hold no newline. */
  lemma DedentedHasNoNewlines(str: string)
    requires Correctable(str)
    ensures NoNewlines(Dedented(Survivors(str)))
  {
    var lines := Survivors(str);
    var out := Dedented(lines);
    SplitHasNoNewlines(str);
    assert NoNewlines(lines);
    forall k | 0 <= k < |out| ensures '\n' !in out[k] {
      assert '\n' !in lines[k];
      if StartsWithSpaces(lines[k], Indent(lines)) {
        assert lines[k] == lines[k][..Indent(lines)] + out[k];
      }
    }
  }

  // ---------------------------------------------------------------------
  // Properties
  // ---------------------------------------------------------------------

  /**
   * The survivors are consecutive input lines: a blank first line is
   * dropped, and then the last line is dropped exactly when it is blank.
   */
  lemma SurvivorsAreInputLines(str: string)
    requires Correctable(str)
    ensures var lines := Split(str); var first := if Blank(lines[0]) then 1 else 0;
      first + |Survivors(str)| <= |lines| <= first + |Survivors(str)| + 1 &&
      Survivors(str) == lines[first..first + |Survivors(str)|] &&
      (first + |Survivors(str)| < |lines| <==> Blank(Last(lines)))
  {
  }

  /**
   * Which inputs the source accepts: every input with at least two
   * newlines, and otherwise exactly those with a character that is not
   * whitespace.
   */
  lemma {:induction false} CorrectableInputs(str: string)
    ensures Correctable(str) <==> (Count(str, '\n') >= 2 || !Blank(str))
  {
    var lines := Split(str);
    SplitCount(str);
    JoinSplit(str);
    if |lines| == 1 {
      assert str == lines[0];
    } else if |lines| == 2 {
      JoinLast(lines);
      assert str == lines[0] + "\n" + lines[1];
      BlankConcat(lines[0] + "\n", lines[1]);
      BlankConcat(lines[0], "\n");
      assert Blank("\n");
    }
  }

  /** A concatenation is blank exactly when both parts are. */
  lemma BlankConcat(a: string, b: string)
    ensures Blank(a + b) <==> Blank(a) && Blank(b)
  {
    assert forall i :: 0 <= i < |a| ==> a[i] == (a + b)[i];
    assert forall i :: 0 <= i < |b| ==> b[i] == (a + b)[|a| + i];
    if Blank(a) && Blank(b) {
      forall i | 0 <= i < |a + b| ensures IsWhitespace((a + b)[i]) {
        if i >= |a| {
          assert (a + b)[i] == b[i - |a|];
        }
      }
    }
  }

  /**
   * The output's lines are the surviving input lines, in order: each
   * either loses exactly the common indent's worth of leading spaces or,
   * when it does not start with that many spaces, stays as it was.
   */
  lemma CorrectedLines(str: string)
    requires Correctable(str)
    ensures var lines := Survivors(str); var out := Split(CorrectWhitespace(str));
      |out| == |lines| &&
      forall k :: 0 <= k < |lines| ==>
        (StartsWithSpaces(lines[k], Indent(lines)) ==> lines[k] == lines[k][..Indent(lines)] + out[k]) &&
        (!StartsWithSpaces(lines[k], Indent(lines)) ==> out[k] == lines[k])
  {
    var lines := Survivors(str);
    assert Split(CorrectWhitespace(str)) == Dedented(lines);
  }

  /**
   * Input whose first and last lines are not blank and one of whose lines
   * has no leading whitespace comes back unchanged.
   */
  lemma UnindentedUnchanged(str: string, k: nat)
    requires !Blank(Split(str)[0]) && !Blank(Last(Split(str)))
    requires k < |Split(str)| && Leading(Split(str)[k]) == 0
    ensures Correctable(str) && CorrectWhitespace(str) == str
  {
    var lines := Split(str);
    assert Survivors(str) == lines;
    assert Indent(lines) == 0;
    assert Dedented(lines) == lines;
    JoinSplit(str);
  }

  /** An empty surviving line makes the indent 0, so no line is stripped. */
  lemma EmptyLineKeepsIndentation(str: string, k: nat)
    requires Correctable(str) && k < |Survivors(str)| && Survivors(str)[k] == ""
    ensures CorrectWhitespace(str) == Join(Survivors(str))
  {
    var lines := Survivors(str);
    assert Indent(lines) == 0;
    assert Dedented(lines) == lines;
  }
}
