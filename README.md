# Code node core, modelled in Dafny

This project models the text logic behind a code-morphing canvas component.
The component shows a tree of code fragments and animates between the code
before a transition and the code after it. The model covers:

- **Patience line diff** (`patienceDiff`, `src/diff.ts`). The diff keeps
  equal leading and trailing lines. It anchors on the lines that occur once
  on each side and chains the anchors with patience sorting. It recurses
  into the gaps between anchors and records every line as kept, deleted or
  inserted, with counters. In `plus` mode it pairs deleted and inserted
  copies of the same line as moves, round after round.
- **Edit-distance alignment** (`changedItems`, `src/edits.ts`). It fills a
  Levenshtein table and backtracks from the last cell. The backtrack tries,
  in order: keep an equal pair, a diagonal change, a deletion, an insertion.
- **Fragment tree** (`src/CodeToken.ts`, `src/CodeFragment.ts`,
  `src/CodeScope.ts`):
  - measuring a string into a token of rows and widths;
  - normalising strings, tokens and `{before, after}` pairs into fragments;
  - the `CODE` template tag;
  - the scope guard and normaliser;
  - resolving a scope tree to the text it shows on either side.
- **Cursor** (`CodeCursor`, `src/CodeCursor.ts`). A class whose fields
  (`cursor`, `maxWidth`, `beforeIndex`, `afterIndex`) change as it walks the
  tree twice:
  - once to measure the size, blending widths and rows by each scope's
    progress;
  - once to draw, cutting each shown token into the runs it hands to
    `fillText`.
- **Helpers.** The `lines` and `word` range builders (`src/CodeRange.ts`) and
  `correctWhitespace` (`src/correctWhitespace.ts`).

Modules:

| module | file | models |
|---|---|---|
| `Wrappers` | `wrappers.dfy` | optional values (`null`, `undefined`, omitted arguments) |
| `Text` | `text.dfy` | `split('\n')` and `join('\n')` |
| `JsValues` | `js_value.dfy` | the JavaScript values the type guards inspect |
| `LineMaps` | `line_map.dfy` | JavaScript `Map<string, V>` with insertion order |
| `DiffAnchors` | `diff_anchors.dfy` | `findUnique`, `uniqueCommon`, `longestCommonSubsequence` |
| `DiffEntries` | `diff_entries.dfy` | diff entries and the walk of each side's indices |
| `DiffMoves` | `diff_moves.dfy` | what the `plus` pass does to a diff |
| `Diff` | `diff.dfy` | `patienceDiff`, including the closure state (`Differ`) and the move pass (`MovePass`) |
| `Edits` | `edits.dfy` | `changedItems` |
| `Tokens` | `code_token.dfy` | `CodeToken`, `stringToToken`, `isCodeToken` |
| `Fragments` | `code_fragment.dfy` | `tokenToFragment`, `parseCodeFragment` |
| `Scopes` | `code_scope.dfy` | `CODE`, `isCodeScope`, `parseCodeScope`, `resolveScope` |
| `Cursor` | `code_cursor.dfy` | `CodeCursor` |
| `Ranges` | `code_range.dfy` | `CodePoint`, `CodeRange`, `lines`, `word` |
| `Whitespace` | `correct_whitespace.dfy` | `correctWhitespace` |

Where the source relies on something outside these files, the model takes a
parameter instead:

- **Text width.** The canvas width of a line,
  `Math.round(context.measureText(line).width / monoWidth)`, is a function
  `measure: string -> int`.
- **Highlighter.** The lookup becomes a function from a text offset and a
  side to `Option<int>`. It returns the highlight's `skipAhead`, or `None`
  when there are no caches or no highlight.
- **Numbers.** Progress, positions and sizes are reals.
- **Infinity.** JavaScript's `Infinity` as a column is `Ranges.Column.Unbounded`.

Two behaviours are modelled exactly as written:

- **`aIndex` of a moved insertion.** In `plus` mode a moved insertion's
  `aIndex` is set to the position of its deletion in the result, not to an
  index into the old lines (`src/diff.ts:373-375`). `DiffMoves.MovedEntry`
  states this.
- **`correctWhitespace` crashes.** It throws when no line survives the
  dropping of blank first and last lines. The model makes this the
  precondition `Whitespace.Correctable`, and `Whitespace.CorrectableInputs`
  characterises exactly which inputs meet it.

## Model

| member | source | states |
|---|---|---|
| `LineMaps.LineMap.Set` | src/diff.ts:63-67 | `map.set` keeps keys distinct: a new key goes last, an existing key keeps its place with the new value, and afterwards the key maps to the value |
| `LineMaps.IndexOf` | src/diff.ts:63-65 | the position of a key in the map's keys, or -1 exactly when no key equals it |
| `DiffAnchors.TallyLines` | src/diff.ts:60-69 | after the counting loop every line of the range is a key; each key has its number of occurrences and its last index; keys are in order of first occurrence |
| `DiffAnchors.SinglesAreUnique` | src/diff.ts:70-75 | the `reduce` keeps exactly the lines counted once, each with its index |
| `DiffAnchors.FindUnique` | src/diff.ts:59-76 | `findUnique` maps exactly the lines occurring once in `lines[start..end]` to an index in the range holding that line, with the indices increasing in key order |
| `DiffAnchors.PairedAreCommon` | src/diff.ts:106-117 | after its `reduce`, `uniqueCommon` holds exactly the lines unique on both sides, each with its index on each side |
| `DiffAnchors.UniqueCommon` | src/diff.ts:95-118 | a key is present exactly when the line occurs once in each range; its value pairs the two indices of that line, and `aIndex` increases in key order |
| `DiffAnchors.DealPiles` | src/diff.ts:133-153 | each anchor goes onto a pile and links to an earlier anchor with smaller indices on both sides; there are piles exactly when there are anchors |
| `DiffAnchors.ChainReversed` | src/diff.ts:155-166 | the chain followed back from the last pile, reversed, increases strictly in both indices and picks anchors of the map |
| `DiffAnchors.LongestCommonSubsequence` | src/diff.ts:130-167 | the result is empty exactly when the map is; each element is an anchor of the map; `aIndex` and `bIndex` both increase strictly along it |
| `DiffAnchors.Reversed` | src/diff.ts:166 | `reverse()`: same length, element `k` is element `n - 1 - k` of the input |
| `Diff.Differ.constructor` | src/diff.ts:173-192 | the closure state starts with an empty result and counters and move lists that agree with it |
| `Diff.Differ.AddToResult` | src/diff.ts:194-210 | appends the unmoved entry whose line is `aLines[aIndex]`, or `bLines[bIndex]` when `aIndex` is -1; each deletion and insertion is counted and listed with its line and result position |
| `Diff.Differ.MatchPrefix` | src/diff.ts:218-225 | keeps equal leading lines pairwise until the ranges end or their heads differ |
| `Diff.Differ.TrimSuffix` | src/diff.ts:227-234 | sets aside the longest run of equal trailing lines without reaching into the kept prefix |
| `Diff.Differ.AddDeletions` | src/diff.ts:254-256 | appends every line of the old range as a deletion, in order |
| `Diff.Differ.AddInsertions` | src/diff.ts:257-259 | appends every line of the new range as an insertion, in order |
| `Diff.Differ.AddGap` | src/diff.ts:253-259 | a gap without unique common lines emits all its deletions before all its insertions, and these walk both ranges whole |
| `Diff.Differ.KeepSuffix` | src/diff.ts:264-267 | appends the trailing lines set aside as kept pairs, in order |
| `Diff.Differ.AddSubMatch` | src/diff.ts:212-268 | the entries added walk the old range and the new range each in order and each line once, and the bookkeeping stays consistent |
| `Diff.Differ.AddBetweenAnchors` | src/diff.ts:307-315 | the pieces from each anchor to the next walk both sides from the first anchor to the last |
| `Diff.Differ.SplitAtChain` | src/diff.ts:302-320 | the piece before the first anchor, the pieces between anchors and the piece after the last anchor together walk both ranges whole |
| `Diff.Differ.RecurseLCS` | src/diff.ts:284-321 | the entries added walk both ranges in order, each line once |
| `Diff.DiffLines` | src/diff.ts:323 | the top-level call yields entries that walk all old lines and all new lines in order; each kept entry pairs equal lines |
| `Diff.DiffShowsBothSides` | src/diff.ts:212-323 | the old-side lines of a diff are exactly `aLines` and its new-side lines exactly `bLines` |
| `DiffEntries.OldSideWalk` | src/diff.ts:212-323 | entries walking the old indices from `s` show exactly `aLines[s..]` up to where the walk ends |
| `DiffEntries.NewSideWalk` | src/diff.ts:212-323 | entries walking the new indices from `s` show exactly `bLines[s..]` up to where the walk ends |
| `Diff.PatienceDiff` | src/diff.ts:323-391 | without `plus`: the diff itself, counters equal to its deletions and insertions; with `plus`: the diff with moves paired; always `deleted + moved` and `inserted + moved` equal the diff's deletions and insertions |
| `Diff.MovePass.constructor` | src/diff.ts:333-352 | the move pass starts from the diff and its counters with no moves and with every deletion and insertion listed as unpaired |
| `Diff.MovePass.Run` | src/diff.ts:356-388 | the rounds keep the diff a moved form of the original with consistent counters, and keep `deleted + moved` and `inserted + moved`; the loop ends because every round that pairs something shrinks the unpaired lists |
| `Diff.MovePass.PairRound` | src/diff.ts:367-387 | one round lists every unpaired line for the next round or pairs it, and keeps the counter sums |
| `Diff.MovePass.PairEntry` | src/diff.ts:371-387 | a kept sub-diff entry adds one move; a deletion or insertion is listed for the next round |
| `Diff.MovePass.PairLines` | src/diff.ts:372-379 | pairing moves one deletion and one insertion to the moves: `moved` +1, `deleted` and `inserted` -1 |
| `Diff.MovePass.ListDeletion` | src/diff.ts:380-382 | an unpaired deletion goes to the next round's list; counters unchanged |
| `Diff.MovePass.ListInsertion` | src/diff.ts:383-385 | an unpaired insertion goes to the next round's list; counters unchanged |
| `DiffMoves.MoveLineEntries` | src/diff.ts:373-376 | a pairing marks both entries moved and points the insertion at the deletion's result position, entry by entry relative to the diff before moves |
| `DiffMoves.MoveLineDistinct` | src/diff.ts:373-376 | no two moved insertions point at the same deletion |
| `DiffMoves.MoveLineCounts` | src/diff.ts:372-379 | after a pairing the counters still count the unpaired deletions, unpaired insertions and moves |
| `DiffMoves.MovedNewSide` | src/diff.ts:371-387 | the move pass does not change the new lines the diff shows |
| `Edits.DistanceTable` | src/edits.ts:36-58 | every cell `d[i][j]` of the filled table is the Levenshtein distance of the prefixes under `eq` |
| `Edits.DistanceBounds` | src/edits.ts:44-58 | the distance lies between the difference of the lengths and the larger length |
| `Edits.DistanceAtLeast` | src/edits.ts:44-58 | the distance is at least the difference of the lengths |
| `Edits.DistanceAtMost` | src/edits.ts:44-58 | the distance is at most the larger length |
| `Edits.BacktrackProgress` | src/edits.ts:62-77 | in every cell but (0, 0) some branch applies: if the first three do not, the insertion branch does |
| `Edits.BacktrackStep` | src/edits.ts:63-77 | one turn takes the first applicable branch and moves strictly closer to (0, 0) |
| `Edits.Backtrack` | src/edits.ts:60-79 | the backtrack loop yields the alignment of the whole inputs |
| `Edits.ChangedItems` | src/edits.ts:27-80 | dropping nulls, the sources are `first` and the targets `second`; the number of `Change` steps is `d[m][n]` |
| `Edits.AlignmentStep` | src/edits.ts:63-77 | the last step consumes the last source exactly when it moves left and the last target exactly when it moves up; `Keep` pairs equal items at no cost; `Change` costs one |
| `Edits.AlignmentProjections` | src/edits.ts:60-79 | dropping nulls, the alignment's sources are `a[..i]` and its targets `b[..j]` |
| `Edits.AlignmentSources` | src/edits.ts:60-79 | the sources of the alignment, nulls dropped, are `a[..i]` |
| `Edits.AlignmentTargets` | src/edits.ts:60-79 | the targets of the alignment, nulls dropped, are `b[..j]` |
| `Edits.AlignmentItems` | src/edits.ts:63-77 | every step consumes at least one item, and every `Keep` pairs items that `eq` calls equal |
| `Edits.AlignmentChangeCount` | src/edits.ts:60-79 | the number of `Change` steps equals the table entry |
| `Edits.AlignmentLength` | src/edits.ts:60-79 | the alignment has between max(i, j) and i + j steps, so it is empty exactly when both inputs are |
| `Edits.InsertionExample` | src/edits.test.ts:5-9 | `'abc'` against `'aebc'`: keep a, insert e, keep b, keep c |
| `Edits.DeletionExample` | src/edits.test.ts:11-15 | `'figh'` against `'fgh'`: keep f, delete i, keep g, keep h |
| `Edits.SwapExample` | src/edits.test.ts:17-21 | `'jklm'` against `'jkml'`: two substitutions |
| `Edits.SubstitutionExample` | src/edits.test.ts:23-27 | `'nopq'` against `'nope'`: a substitution at the end |
| `Edits.NumberExample` | src/edits.test.ts:31-34 | `[1, 2, 3]` against `[1, 4, 3]`: keep, change, keep |
| `Edits.LineArrayExample` | src/edits.test.ts:38-45 | arrays of strings compare whole lines |
| `Edits.CustomEqualityExample` | src/edits.ts:30 | with a custom `eq`, items it calls equal are kept even when they differ |
| `Text.Split` | src/CodeToken.ts:15 | `split('\n')` always yields at least one line |
| `Text.SplitCount` | src/CodeToken.ts:15-37 | a split has one more line than the text has newlines |
| `Text.JoinSplit` | src/correctWhitespace.ts:2-11 | joining the lines of a split gives back the text |
| `Text.SplitJoin` | src/correctWhitespace.ts:2-11 | splitting the join of newline-free lines gives back the lines |
| `Text.Utf16LengthBounds` | src/CodeToken.ts:38 | `.length` counts one or two UTF-16 units per character, and equals the character count exactly on text in the Basic Multilingual Plane |
| `Tokens.Widest` | src/CodeToken.ts:21-29 | the maximum is at least every measured width and equal to one of them |
| `Tokens.StringToToken` | src/CodeToken.ts:10-43 | the loop builds the token `MeasureString` describes, with `endColumn` in UTF-16 code units as `.length` counts; its properties follow in `TokenRows` to `AstralEndColumn` |
| `Tokens.TokenRows` | src/CodeToken.ts:15-37 | `content` is the input; `newRows` is its number of newlines and is 0 exactly when it has none |
| `Tokens.TokenEndColumn` | src/CodeToken.ts:15-38 | `endColumn` is the UTF-16 length of the input's newline-free tail, which is all of the input or follows a newline |
| `Tokens.TokenMaxWidth` | src/CodeToken.ts:17-29 | `maxWidth` is the widest of the first line and the interior lines; the last line counts only when it is also the first |
| `Tokens.TokenLastWidth` | src/CodeToken.ts:31-38 | `lastWidth` is the width of the text after the last newline, the same text whose UTF-16 length is `endColumn` |
| `Tokens.SingleLineToken` | src/CodeToken.ts:15-42 | without a newline: no new rows, `endColumn` is the text's UTF-16 length, and the three widths equal the text's width |
| `Tokens.AstralEndColumn` | src/CodeToken.ts:38 | a character above U+FFFF counts two columns in `endColumn`, as in `.length` |
| `Tokens.IsCodeToken` | src/CodeToken.ts:45-47 | false on `undefined`, `null`, primitives and arrays; on an object, true exactly when `content` is present and not `undefined` |
| `Tokens.TokenValue` | src/CodeToken.ts:45-47 | every token, as a JavaScript object, passes `isCodeToken` |
| `Fragments.TokenToFragment` | src/CodeFragment.ts:18-23 | both sides of the fragment are the token |
| `Fragments.MeasureSide` | src/CodeFragment.ts:37-44 | a string side is measured into a token with that content; a token side is kept |
| `Fragments.ParseCodeFragment` | src/CodeFragment.ts:25-49 | a string becomes its measurement on both sides; a token is kept on both sides; a pair's sides are normalised independently; each side's content is the text the fragment stands for on that side |
| `Fragments.ParseIdempotent` | src/CodeFragment.ts:35-45 | normalising an already normalised fragment gives it back unchanged |
| `Fragments.StringFragmentIsStatic` | src/CodeFragment.ts:31-32 | a string fragment is static: one measured token with that content on both sides |
| `Scopes.Code` | src/CodeScope.ts:14-24 | the `CODE` generator yields the strings in order, each followed by its tag when the tag is defined |
| `Scopes.InterleavedLength` | src/CodeScope.ts:18-23 | a template of `n` strings yields `n` fragments plus one per defined tag |
| `Scopes.InterleavedAt` | src/CodeScope.ts:18-23 | string `i` sits after the strings and defined tags before it, and a defined tag `i` sits right after string `i` |
| `Scopes.GuardsPickTheForm` | src/CodeScope.ts:56-62 | `typeof` string, `isCodeScope` and the token guard each hold for exactly one form of tag, so a tag that fails all three is a pair |
| `Scopes.IsCodeScope` | src/CodeScope.ts:26-28 | false on `undefined`, `null`, primitives and arrays; on an object, true exactly when `fragments` is present and not `undefined` |
| `Scopes.ParseCodeScope` | src/CodeScope.ts:30-46 | a scope object is returned as it is; a string becomes one string fragment and an iterable keeps its fragments, both at progress 0 |
| `Scopes.ParsedStringResolves` | src/CodeScope.ts:31-36 | a string becomes a scope at progress 0 that resolves to the string on either side |
| `Scopes.ParsedIterableKeepsTags` | src/CodeScope.ts:38-43 | an iterable becomes a scope at progress 0 with the same fragments |
| `Scopes.ParseIdempotent` | src/CodeScope.ts:30-46 | a scope is returned unchanged, so normalising twice equals normalising once |
| `Scopes.ResolveScope` | src/CodeScope.ts:48-74 | the loop yields the text `Resolved` describes, whose properties follow in the next rows |
| `Scopes.ResolvedConcat` | src/CodeScope.ts:52-73 | the fragments are resolved one after the other: concatenated fragment lists resolve to the concatenated texts |
| `Scopes.ResolvedStrings` | src/CodeScope.ts:56-57 | a scope of strings resolves to the strings verbatim and in order, on either side |
| `Scopes.FixedSideEverywhere` | src/CodeScope.ts:53-59 | with a boolean `isAfter`, every scope of the tree, nested ones included, is read on that one side |
| `Scopes.StaticReadsAlike` | src/CodeScope.ts:56-61 | a tree of strings, tokens and such scopes resolves to the same text whatever sides are chosen |
| `Cursor.Map` | src/CodeCursor.ts:75 | `map(a, b, t)` is `a` at 0 and `b` at 1, and between them for `t` in [0, 1] |
| `Cursor.CalculateMaxWidth` | src/CodeCursor.ts:248-254 | the result is at least `maxWidth`, `token.maxWidth` and `cursor.x + firstWidth`, and is one of them |
| `Cursor.CalculateWidth` | src/CodeCursor.ts:242-246 | a token without new rows ends at `cursor.x` plus its last width; one that breaks the line ends at its last width |
| `Cursor.WidthIsEndColumn` | src/CodeCursor.ts:242-246 | with one cell per UTF-16 unit, a token ends at `cursor.x` plus its `.length` without a newline, and at its `endColumn` with one |
| `Cursor.Shown` | src/CodeCursor.ts:162-163 | the before token below progress 0.5, the after token from then on; a static fragment shows the same token throughout |
| `Cursor.VerticalOffset` | src/CodeCursor.ts:125-137 | no lift when the content does not change or at progress 0 or 1; the full lift at 0.5 |
| `Cursor.StaticMeasureStep` | src/CodeCursor.ts:72-92 | a static fragment measures the same at every progress |
| `Cursor.MeasureStepEnds` | src/CodeCursor.ts:72-92 | at progress 0 a leaf measures as its before token, and at progress 1 as its after token |
| `Cursor.MeasureStepRows` | src/CodeCursor.ts:75-92 | a leaf never narrows `maxWidth`; afterwards `cursor.y >= 1`, and it has grown by the blended `newRows` from 1 or from where it was |
| `Cursor.MeasuredGrows` | src/CodeCursor.ts:57-94 | `measureSize` never narrows `maxWidth` |
| `Cursor.DrawStepEnds` | src/CodeCursor.ts:144-152 | at progress 0 the draw pass moves the cursor as for the before token, and at 1 as for the after token |
| `Cursor.ColumnsAgree` | src/CodeCursor.ts:111-154 | from the same column, `drawScope` ends on the column `measureSize` computes |
| `Cursor.NextBreak` | src/CodeCursor.ts:220-225 | the run without a highlight ends just before the next newline, or at the end of the text |
| `Cursor.RunEnd` | src/CodeCursor.ts:214-226 | a run is never empty and never passes the end of the text |
| `Cursor.TakeRun` | src/CodeCursor.ts:214-226 | the collected run is the slice from `i` that the highlight selects: `skipAhead` characters, one character, or up to the next newline |
| `Cursor.DrawingSkip` | src/CodeCursor.ts:172-177 | a newline moves the pen to column 0 of the next row and draws nothing |
| `Cursor.DrawingAppend` | src/CodeCursor.ts:179-237 | drawing the selected run at the pen keeps every run tiled, selected and placed, and moves the pen past it |
| `Cursor.CodeCursor.constructor` | src/CodeCursor.ts:19-30 | a new cursor starts at (0, 0) with both offsets at 0 |
| `Cursor.CodeCursor.Reset` | src/CodeCursor.ts:37-47 | `cursor` is (0, 0); `beforeIndex`, `afterIndex` and `maxWidth` are 0; the context's measurements are taken |
| `Cursor.CodeCursor.GetSize` | src/CodeCursor.ts:99-104 | the size in pixels: the widest row in cells times the cell width, by the rows times the row height |
| `Cursor.CodeCursor.MeasureSize` | src/CodeCursor.ts:57-94 | the cursor and `maxWidth` become the measurement of the tree, which `MeasuredGrows` and `MeasureStepRows` characterise; the offsets and the context are unchanged |
| `Cursor.CodeCursor.DrawScope` | src/CodeCursor.ts:111-154 | `beforeIndex` grows by the length of the tree's whole before text and `afterIndex` by its after text, nested scopes included; the cursor follows the draw steps and `maxWidth` is unchanged |
| `Cursor.CodeCursor.DrawLeaf` | src/CodeCursor.ts:120-152 | a leaf advances the offsets by the lengths of its before and after contents and moves the cursor by the blended rows and end column |
| `Cursor.CodeCursor.DrawToken` | src/CodeCursor.ts:156-240 | the runs tile the shown side's content apart from skipped newlines; the side is before below progress 0.5; each run's length is what the highlight at its start selects; each run sits on the row of the newlines skipped and at the column where the row's text ends |
| `Cursor.CodeCursor.DrawRun` | src/CodeCursor.ts:179-237 | one run advances the position by at least one character, keeping the drawing invariant |
| `Ranges.Lines` | src/CodeRange.ts:12-17 | starts at `[from, 0]` and ends at the unbounded column of row `to`, or of row `from` when `to` is omitted |
| `Ranges.Word` | src/CodeRange.ts:27-32 | starts at `[line, from]` and ends on the same row at column `from + length`, or unbounded without a length |
| `Ranges.LinesOrdered` | src/CodeRange.ts:12-17 | start ≤ end in row-major order exactly when `to` is omitted or `from <= to` |
| `Ranges.WordOrdered` | src/CodeRange.ts:27-32 | start ≤ end exactly when the length is omitted or non-negative |
| `Ranges.LinesSpanRows` | src/CodeRange.ts:12-17 | a point with a column from 0 on lies in `lines(from, to)` exactly when its row is between `from` and `to` |
| `Ranges.WordSpansColumns` | src/CodeRange.ts:27-32 | a point lies in `word(line, from, length)` exactly when it is on `line` and between columns `from` and `from + length` |
| `Whitespace.Leading` | src/correctWhitespace.ts:6 | the length of the longest all-whitespace prefix of the line |
| `Whitespace.Indent` | src/correctWhitespace.ts:5-7 | the indent is at most every line's leading whitespace and equal to one of them |
| `Whitespace.Dedent` | src/correctWhitespace.ts:9-11 | a line starting with `indent` spaces loses exactly them; any other line is unchanged |
| `Whitespace.SurvivorsAreInputLines` | src/correctWhitespace.ts:2-4 | the lines left are consecutive input lines: a blank first line is dropped, and then the last line is dropped exactly when it is blank |
| `Whitespace.CorrectableInputs` | src/correctWhitespace.ts:2-9 | the function does not throw exactly when the input has two newlines or a non-whitespace character |
| `Whitespace.BlankConcat` | src/correctWhitespace.ts:3-4 | a concatenation is all whitespace exactly when both parts are |
| `Whitespace.CorrectWhitespace` | src/correctWhitespace.ts:1-12 | splitting the output at newlines gives the surviving lines, each dedented by the common indent |
| `Whitespace.CorrectedLines` | src/correctWhitespace.ts:5-11 | the output lines are the surviving lines in order, each either losing exactly the common indent's spaces or unchanged |
| `Whitespace.UnindentedUnchanged` | src/correctWhitespace.test.ts:15-23 | with non-blank first and last lines and a line without leading whitespace, the output is the input |
| `Whitespace.EmptyLineKeepsIndentation` | src/correctWhitespace.test.ts:25-39 | an empty surviving line makes the indent 0, so no line loses anything |

## Left out

- Canvas calls (`save`, `restore`, `globalAlpha`, `fillStyle`, `fillText`) are not modelled as such. `drawToken` returns the runs it would hand to `fillText`, with their pixel positions.
- The fade `alpha` (`clampRemap`) and the colour blending (`Color.lerp`, `fallbackFill`) are floating-point presentation, so they are left out. The highlight's colour is left out too; only its `skipAhead` is modelled.
- Measurements are parameters: the `measureText` widths with their division and `Math.round` (`measure`), `monoWidth`, `lineHeight`, and the highlighter with its caches.
- `SignalValue` and `unwrap` are not modelled. Progress and fragments are already-resolved values.
- The `CodeMetrics` module is not part of this model. It is taken to be the `CodeToken` record with the same fields and guard.
- `CODE` returns the sequence it would yield rather than a lazy generator.
- `Cursor.CodeCursor.constructor` takes no `node`. The node's line height, fill and highlighter cache reach the model as `Reset`'s parameters instead. The source's constructor stores the node and leaves the context, `monoWidth`, `maxWidth`, `lineHeight`, `fallbackFill` and `caches` unset until `reset`. The model's constructor gives those fields placeholder values (every width 0, no highlight), which `Reset` overwrites.
- `printDiff` and the `console.log` calls in `correctWhitespace` are debug output, so they are left out.
- `Diff.PatienceDiff` returns `lineCountMoved = 0` without `plus`, where the source's object has no such field.
- `DiffAnchors.LongestCommonSubsequence` is proved to return an increasing chain of common unique lines, not a longest one.
- `Cursor.MeasureStepRows` assumes non-negative `newRows` on both sides, as every token `stringToToken` builds has. A hand-built token could have negative rows.
- `Whitespace.CorrectWhitespace` is not checked against the four concrete examples in `correctWhitespace.test.ts`. Its general properties are stated instead.
- Range containment, consolidation and inversion (`isPointInCodeRange` and the others that `CodeRange.test.ts` imports) are not part of this model, because their source is not among the files modelled. `Ranges.Within` is only the row-major reading used to state what `lines` and `word` cover.
- `Cursor.CodeCursor.DrawScope` advances `beforeIndex` and `afterIndex` by the resolved text's length in characters (Unicode scalar values). The source's `.length` counts UTF-16 code units. The two agree exactly on text in the Basic Multilingual Plane (`Text.Utf16LengthBounds`). A character above U+FFFF counts once here and twice in the source.
- `Cursor.CodeCursor.DrawLeaf` adds `|content|` in characters to the offsets, where the source adds the UTF-16 `.length`. It agrees with the source on Basic Multilingual Plane text only.
- `Cursor.CodeCursor.DrawToken` walks the content by character: its run boundaries, the offsets it asks the highlighter about, and `skipAhead` are counted in characters. The source's `charAt`, `slice` and loop index count UTF-16 code units, so the model agrees with it on Basic Multilingual Plane text only. An astral character is never split into two surrogate halves here.
- `Cursor.RunEnd` counts `skipAhead` and the end of the text in characters, not UTF-16 code units. It agrees with the source on Basic Multilingual Plane text only.
- `Cursor.TakeRun` slices by characters where `slice` and `charAt` use UTF-16 code units. It agrees with the source on Basic Multilingual Plane text only.
- Number width: sizes and indices are unbounded integers and exact reals. JavaScript's doubles and their rounding are not modelled.
