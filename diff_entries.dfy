/**
 * The entries `patienceDiff` produces and what a sequence of them says
 * about the two sides it compares: which old and new lines it walks
 * through, in which order, and which of them it counts as deleted,
 * inserted or moved.
 */
module DiffEntries {
  /**
   * One line of a diff: its text, its index in the old and in the new
   * lines (-1 where it has none), and whether a move pass paired it.
   */
  datatype DiffLine = DiffLine(line: string, aIndex: int, bIndex: int, moved: bool)

  /** An entry as `addToResult` makes it from indices into `aLines` and `bLines`. */
  ghost predicate Entry(e: DiffLine, aLines: seq<string>, bLines: seq<string>)
  {
    -1 <= e.aIndex < |aLines| && -1 <= e.bIndex < |bLines| && (e.aIndex >= 0 || e.bIndex >= 0)
    && e.line == (if e.aIndex >= 0 then aLines[e.aIndex] else bLines[e.bIndex])
    && (e.aIndex >= 0 && e.bIndex >= 0 ==> aLines[e.aIndex] == bLines[e.bIndex])
    && !e.moved
  }

  /** Every entry of `lines` is one `addToResult` makes. */
  ghost predicate Entries(lines: seq<DiffLine>, aLines: seq<string>, bLines: seq<string>)
  {
    forall k :: 0 <= k < |lines| ==> Entry(lines[k], aLines, bLines)
  }

  /** A deletion no move pass has paired: `lineCountDeleted` counts these. */
  predicate IsDeletion(e: DiffLine)
  {
    e.bIndex < 0 && !e.moved
  }

  /** An insertion no move pass has paired: `lineCountInserted` counts these. */
  predicate IsInsertion(e: DiffLine)
  {
    e.aIndex < 0
  }

  /** A deletion a move pass has paired with an insertion: `lineCountMoved` counts these. */
  predicate IsMove(e: DiffLine)
  {
    e.bIndex < 0 && e.moved
  }

  /** The positions of the entries of `lines` that satisfy `f`, in order. */
  function Positions(lines: seq<DiffLine>, f: DiffLine -> bool): (r: seq<int>)
    ensures |r| <= |lines|
    ensures forall k :: 0 <= k < |r| ==> 0 <= r[k] < |lines| && f(lines[r[k]])
    ensures forall j, k :: 0 <= j < k < |r| ==> r[j] < r[k]
  {
    if lines == [] then []
    else Positions(lines[..|lines| - 1], f) + (if f(lines[|lines| - 1]) then [|lines| - 1] else [])
  }

  /** The positions of the deletions. */
  function Deletions(lines: seq<DiffLine>): seq<int>
  {
    Positions(lines, IsDeletion)
  }

  /** The positions of the insertions. */
  function Insertions(lines: seq<DiffLine>): seq<int>
  {
    Positions(lines, IsInsertion)
  }

  /** The positions of the moved deletions. */
  function Moves(lines: seq<DiffLine>): seq<int>
  {
    Positions(lines, IsMove)
  }

  /** The positions in a diff extended by one entry. */
  lemma PositionsAppend(lines: seq<DiffLine>, e: DiffLine, f: DiffLine -> bool)
    ensures Positions(lines + [e], f) == Positions(lines, f) + (if f(e) then [|lines|] else [])
  {
    assert (lines + [e])[..|lines|] == lines;
  }

  /** Replacing one entry changes how many entries satisfy `f` by what it changes at that entry. */
  lemma {:induction false} PositionsUpdate(lines: seq<DiffLine>, p: int, e: DiffLine, f: DiffLine -> bool)
    requires 0 <= p < |lines|
    ensures |Positions(lines[p := e], f)|
         == |Positions(lines, f)| - (if f(lines[p]) then 1 else 0) + (if f(e) then 1 else 0)
  {
    var n := |lines| - 1;
    var init := lines[..n];
    assert lines[p := e][..n] == (if p < n then init[p := e] else init);
    if p < n {
      PositionsUpdate(init, p, e, f);
    }
  }

  /**
   * Walks the old-side indices of `lines`, expecting `from`, `from + 1`, …
   * in this order: the index after the last one, or -1 when an entry breaks
   * the order.
   */
  function ANext(lines: seq<DiffLine>, from: nat): (r: int)
    ensures r == -1 || from <= r <= from + |lines|
  {
    if lines == [] then from
    else
      var cur := ANext(lines[..|lines| - 1], from);
      var e := lines[|lines| - 1];
      if cur < 0 || e.aIndex < 0 then cur
      else if e.aIndex == cur then cur + 1
      else -1
  }

  /** `ANext` for the new-side indices. */
  function BNext(lines: seq<DiffLine>, from: nat): (r: int)
    ensures r == -1 || from <= r <= from + |lines|
  {
    if lines == [] then from
    else
      var cur := BNext(lines[..|lines| - 1], from);
      var e := lines[|lines| - 1];
      if cur < 0 || e.bIndex < 0 then cur
      else if e.bIndex == cur then cur + 1
      else -1
  }

  /** Walking the old-side indices of two diffs one after the other. */
  lemma {:induction false} ANextConcat(x: seq<DiffLine>, y: seq<DiffLine>, s: nat)
    requires ANext(x, s) >= 0
    ensures ANext(x + y, s) == ANext(y, ANext(x, s))
  {
    if y == [] {
      assert x + y == x;
    } else {
      var n := |y| - 1;
      assert (x + y)[..|x + y| - 1] == x + y[..n];
      ANextConcat(x, y[..n], s);
    }
  }

  /** Walking the new-side indices of two diffs one after the other. */
  lemma {:induction false} BNextConcat(x: seq<DiffLine>, y: seq<DiffLine>, s: nat)
    requires BNext(x, s) >= 0
    ensures BNext(x + y, s) == BNext(y, BNext(x, s))
  {
    if y == [] {
      assert x + y == x;
    } else {
      var n := |y| - 1;
      assert (x + y)[..|x + y| - 1] == x + y[..n];
      BNextConcat(x, y[..n], s);
    }
  }

  /** `lo, …, hi - 1` of the old lines, each deleted. */
  function DeletedRun(aLines: seq<string>, lo: int, hi: int): (r: seq<DiffLine>)
    requires 0 <= lo <= hi <= |aLines|
    ensures |r| == hi - lo
    decreases hi - lo
  {
    if hi == lo then [] else DeletedRun(aLines, lo, hi - 1) + [DiffLine(aLines[hi - 1], hi - 1, -1, false)]
  }

  /** `lo, …, hi - 1` of the new lines, each inserted. */
  function InsertedRun(bLines: seq<string>, lo: int, hi: int): (r: seq<DiffLine>)
    requires 0 <= lo <= hi <= |bLines|
    ensures |r| == hi - lo
    decreases hi - lo
  {
    if hi == lo then [] else InsertedRun(bLines, lo, hi - 1) + [DiffLine(bLines[hi - 1], -1, hi - 1, false)]
  }

  /** Old lines `aLo, …, aHi - 1` kept as new lines `bLo, …, bHi - 1`. */
  function KeptRun(aLines: seq<string>, aLo: int, aHi: int, bLo: int, bHi: int): (r: seq<DiffLine>)
    requires 0 <= aLo <= aHi <= |aLines| && aHi - aLo == bHi - bLo
    ensures |r| == aHi - aLo
    decreases aHi - aLo
  {
    if aHi == aLo then []
    else KeptRun(aLines, aLo, aHi - 1, bLo, bHi - 1) + [DiffLine(aLines[aHi - 1], aHi - 1, bHi - 1, false)]
  }

  /** A run of deletions walks the old lines from `lo` to `hi`. */
  lemma {:induction false} DeletedRunA(aLines: seq<string>, lo: int, hi: int)
    requires 0 <= lo <= hi <= |aLines|
    ensures ANext(DeletedRun(aLines, lo, hi), lo) == hi
    decreases hi - lo
  {
    if hi > lo {
      var run := DeletedRun(aLines, lo, hi - 1);
      DeletedRunA(aLines, lo, hi - 1);
      assert (run + [DiffLine(aLines[hi - 1], hi - 1, -1, false)])[..hi - lo - 1] == run;
    }
  }

  /** A run of deletions passes over the new lines. */
  lemma {:induction false} DeletedRunB(aLines: seq<string>, lo: int, hi: int, s: nat)
    requires 0 <= lo <= hi <= |aLines|
    ensures BNext(DeletedRun(aLines, lo, hi), s) == s
    decreases hi - lo
  {
    if hi > lo {
      var run := DeletedRun(aLines, lo, hi - 1);
      DeletedRunB(aLines, lo, hi - 1, s);
      assert (run + [DiffLine(aLines[hi - 1], hi - 1, -1, false)])[..hi - lo - 1] == run;
    }
  }

  /** A run of insertions passes over the old lines. */
  lemma {:induction false} InsertedRunA(bLines: seq<string>, lo: int, hi: int, s: nat)
    requires 0 <= lo <= hi <= |bLines|
    ensures ANext(InsertedRun(bLines, lo, hi), s) == s
    decreases hi - lo
  {
    if hi > lo {
      var run := InsertedRun(bLines, lo, hi - 1);
      InsertedRunA(bLines, lo, hi - 1, s);
      assert (run + [DiffLine(bLines[hi - 1], -1, hi - 1, false)])[..hi - lo - 1] == run;
    }
  }

  /** A run of insertions walks the new lines from `lo` to `hi`. */
  lemma {:induction false} InsertedRunB(bLines: seq<string>, lo: int, hi: int)
    requires 0 <= lo <= hi <= |bLines|
    ensures BNext(InsertedRun(bLines, lo, hi), lo) == hi
    decreases hi - lo
  {
    if hi > lo {
      var run := InsertedRun(bLines, lo, hi - 1);
      InsertedRunB(bLines, lo, hi - 1);
      assert (run + [DiffLine(bLines[hi - 1], -1, hi - 1, false)])[..hi - lo - 1] == run;
    }
  }

  /** A run of kept lines walks the old lines from `aLo` to `aHi`. */
  lemma {:induction false} KeptRunA(aLines: seq<string>, aLo: int, aHi: int, bLo: int, bHi: int)
    requires 0 <= aLo <= aHi <= |aLines| && aHi - aLo == bHi - bLo
    ensures ANext(KeptRun(aLines, aLo, aHi, bLo, bHi), aLo) == aHi
    decreases aHi - aLo
  {
    if aHi > aLo {
      var run := KeptRun(aLines, aLo, aHi - 1, bLo, bHi - 1);
      KeptRunA(aLines, aLo, aHi - 1, bLo, bHi - 1);
      assert (run + [DiffLine(aLines[aHi - 1], aHi - 1, bHi - 1, false)])[..aHi - aLo - 1] == run;
    }
  }

  /** A run of kept lines walks the new lines from `bLo` to `bHi`. */
  lemma {:induction false} KeptRunB(aLines: seq<string>, aLo: int, aHi: int, bLo: nat, bHi: int)
    requires 0 <= aLo <= aHi <= |aLines| && aHi - aLo == bHi - bLo
    ensures BNext(KeptRun(aLines, aLo, aHi, bLo, bHi), bLo) == bHi
    decreases aHi - aLo
  {
    if aHi > aLo {
      var run := KeptRun(aLines, aLo, aHi - 1, bLo, bHi - 1);
      KeptRunB(aLines, aLo, aHi - 1, bLo, bHi - 1);
      assert (run + [DiffLine(aLines[aHi - 1], aHi - 1, bHi - 1, false)])[..aHi - aLo - 1] == run;
    }
  }

  /** The old lines a diff shows: the text of its entries that have an old-side index. */
  function OldSide(lines: seq<DiffLine>): (r: seq<string>)
    ensures |r| <= |lines|
  {
    if lines == [] then []
    else
      var e := lines[|lines| - 1];
      OldSide(lines[..|lines| - 1]) + (if e.aIndex >= 0 then [e.line] else [])
  }

  /** The new lines a diff shows: the text of its entries that have a new-side index. */
  function NewSide(lines: seq<DiffLine>): (r: seq<string>)
    ensures |r| <= |lines|
  {
    if lines == [] then []
    else
      var e := lines[|lines| - 1];
      NewSide(lines[..|lines| - 1]) + (if e.bIndex >= 0 then [e.line] else [])
  }

  /** The entries of a diff but its last are entries too. */
  lemma EntriesInit(lines: seq<DiffLine>, aLines: seq<string>, bLines: seq<string>)
    requires Entries(lines, aLines, bLines) && lines != []
    ensures Entries(lines[..|lines| - 1], aLines, bLines) && Entry(lines[|lines| - 1], aLines, bLines)
  {
    var init := lines[..|lines| - 1];
    forall k | 0 <= k < |init| ensures Entry(init[k], aLines, bLines) {
      assert init[k] == lines[k];
    }
  }

  /** Entries that walk the old lines from `s` to `ANext(lines, s)` show exactly those lines. */
  lemma {:induction false} OldSideWalk(lines: seq<DiffLine>, aLines: seq<string>, bLines: seq<string>, s: nat)
    requires Entries(lines, aLines, bLines)
    requires ANext(lines, s) >= 0 && s <= |aLines|
    ensures ANext(lines, s) <= |aLines|
    ensures OldSide(lines) == aLines[s..ANext(lines, s)]
  {
    if lines != [] {
      var n := |lines| - 1;
      var init := lines[..n];
      EntriesInit(lines, aLines, bLines);
      OldSideWalk(init, aLines, bLines, s);
      if lines[n].aIndex >= 0 {
        var cur := ANext(init, s);
        assert aLines[s..cur + 1] == aLines[s..cur] + [aLines[cur]];
      }
    }
  }

  /** Entries that walk the new lines from `s` to `BNext(lines, s)` show exactly those lines. */
  lemma {:induction false} NewSideWalk(lines: seq<DiffLine>, aLines: seq<string>, bLines: seq<string>, s: nat)
    requires Entries(lines, aLines, bLines)
    requires BNext(lines, s) >= 0 && s <= |bLines|
    ensures BNext(lines, s) <= |bLines|
    ensures NewSide(lines) == bLines[s..BNext(lines, s)]
  {
    if lines != [] {
      var n := |lines| - 1;
      var init := lines[..n];
      EntriesInit(lines, aLines, bLines);
      NewSideWalk(init, aLines, bLines, s);
      if lines[n].bIndex >= 0 {
        var cur := BNext(init, s);
        assert bLines[s..cur + 1] == bLines[s..cur] + [bLines[cur]];
      }
    }
  }
}
