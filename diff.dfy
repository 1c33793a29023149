/**
 * `patienceDiff`: the entries of the diff of two arrays of lines, built by
 * matching equal leading and trailing lines and splitting what is left at
 * the longest common subsequence of its unique common lines; with `plus`,
 * deletions and insertions of the same lines are then paired as moves.
 */
module Diff {
  import opened LineMaps
  import opened DiffAnchors
  import opened DiffEntries
  import opened DiffMoves

  /** What `patienceDiff` returns; `lineCountMoved` stays 0 without `plus`. */
  datatype Difference = Difference(
    lines: seq<DiffLine>,
    lineCountDeleted: int,
    lineCountInserted: int,
    lineCountMoved: int)

  /** The heads of the two ranges cannot be matched: a prefix match stopped here. */
  predicate HeadsDiffer(aLines: seq<string>, aStart: int, aEnd: int,
                        bLines: seq<string>, bStart: int, bEnd: int)
    requires 0 <= aStart <= aEnd + 1 <= |aLines| && 0 <= bStart <= bEnd + 1 <= |bLines|
  {
    aStart > aEnd || bStart > bEnd || aLines[aStart] != bLines[bStart]
  }

  /**
   * What `patienceDiff` keeps beside its entries: the counters count the
   * deletions and the insertions, whose lines and positions the move lists
   * hold, and every entry is one `addToResult` makes.
   */
  ghost predicate Tracked(aLines: seq<string>, bLines: seq<string>, result: seq<DiffLine>,
                          deleted: int, inserted: int,
                          aMove: seq<string>, aMoveIndex: seq<int>,
                          bMove: seq<string>, bMoveIndex: seq<int>)
  {
    Entries(result, aLines, bLines)
    && aMoveIndex == Deletions(result) && deleted == |aMoveIndex|
    && bMoveIndex == Insertions(result) && inserted == |bMoveIndex|
    && Listed(result, aMove, aMoveIndex) && Listed(result, bMove, bMoveIndex)
  }

  /** `moves[k]` is the line of the entry at `moveIndex[k]`. */
  ghost predicate Listed(result: seq<DiffLine>, moves: seq<string>, moveIndex: seq<int>)
  {
    |moves| == |moveIndex|
    && forall k :: 0 <= k < |moves| ==> 0 <= moveIndex[k] < |result| && moves[k] == result[moveIndex[k]].line
  }

  /** Appending an entry keeps a move list. */
  lemma ListedKeep(result: seq<DiffLine>, e: DiffLine, moves: seq<string>, moveIndex: seq<int>)
    requires Listed(result, moves, moveIndex)
    ensures Listed(result + [e], moves, moveIndex)
  {
    forall k | 0 <= k < |moves|
      ensures moves[k] == (result + [e])[moveIndex[k]].line
    {
      assert (result + [e])[moveIndex[k]] == result[moveIndex[k]];
    }
  }

  /** Appending an entry and listing it extends a move list. */
  lemma ListedPush(result: seq<DiffLine>, e: DiffLine, moves: seq<string>, moveIndex: seq<int>)
    requires Listed(result, moves, moveIndex)
    ensures Listed(result + [e], moves + [e.line], moveIndex + [|result|])
  {
    ListedKeep(result, e, moves, moveIndex);
  }

  /** Appending an entry `addToResult` makes keeps `Entries`. */
  lemma EntriesAppend(result: seq<DiffLine>, e: DiffLine, aLines: seq<string>, bLines: seq<string>)
    requires Entries(result, aLines, bLines) && Entry(e, aLines, bLines)
    ensures Entries(result + [e], aLines, bLines)
  {
    forall k | 0 <= k < |result| + 1
      ensures Entry((result + [e])[k], aLines, bLines)
    {
      if k < |result| {
        assert (result + [e])[k] == result[k];
      }
    }
  }

  /** Appending a deletion and listing it keeps `Tracked`. */
  lemma TrackedDeletion(aLines: seq<string>, bLines: seq<string>, result: seq<DiffLine>,
                        deleted: int, inserted: int,
                        aMove: seq<string>, aMoveIndex: seq<int>,
                        bMove: seq<string>, bMoveIndex: seq<int>, e: DiffLine)
    requires Tracked(aLines, bLines, result, deleted, inserted, aMove, aMoveIndex, bMove, bMoveIndex)
    requires Entry(e, aLines, bLines) && e.bIndex < 0
    ensures Tracked(aLines, bLines, result + [e], deleted + 1, inserted,
                    aMove + [e.line], aMoveIndex + [|result|], bMove, bMoveIndex)
  {
    EntriesAppend(result, e, aLines, bLines);
    PositionsAppend(result, e, IsDeletion);
    PositionsAppend(result, e, IsInsertion);
    ListedPush(result, e, aMove, aMoveIndex);
    ListedKeep(result, e, bMove, bMoveIndex);
  }

  /** Appending an insertion and listing it keeps `Tracked`. */
  lemma TrackedInsertion(aLines: seq<string>, bLines: seq<string>, result: seq<DiffLine>,
                         deleted: int, inserted: int,
                         aMove: seq<string>, aMoveIndex: seq<int>,
                         bMove: seq<string>, bMoveIndex: seq<int>, e: DiffLine)
    requires Tracked(aLines, bLines, result, deleted, inserted, aMove, aMoveIndex, bMove, bMoveIndex)
    requires Entry(e, aLines, bLines) && e.aIndex < 0
    ensures Tracked(aLines, bLines, result + [e], deleted, inserted + 1,
                    aMove, aMoveIndex, bMove + [e.line], bMoveIndex + [|result|])
  {
    EntriesAppend(result, e, aLines, bLines);
    PositionsAppend(result, e, IsDeletion);
    PositionsAppend(result, e, IsInsertion);
    ListedKeep(result, e, aMove, aMoveIndex);
    ListedPush(result, e, bMove, bMoveIndex);
  }

  /** Appending a kept line keeps `Tracked`. */
  lemma TrackedKept(aLines: seq<string>, bLines: seq<string>, result: seq<DiffLine>,
                    deleted: int, inserted: int,
                    aMove: seq<string>, aMoveIndex: seq<int>,
                    bMove: seq<string>, bMoveIndex: seq<int>, e: DiffLine)
    requires Tracked(aLines, bLines, result, deleted, inserted, aMove, aMoveIndex, bMove, bMoveIndex)
    requires Entry(e, aLines, bLines) && e.aIndex >= 0 && e.bIndex >= 0
    ensures Tracked(aLines, bLines, result + [e], deleted, inserted,
                    aMove, aMoveIndex, bMove, bMoveIndex)
  {
    EntriesAppend(result, e, aLines, bLines);
    PositionsAppend(result, e, IsDeletion);
    PositionsAppend(result, e, IsInsertion);
    ListedKeep(result, e, aMove, aMoveIndex);
    ListedKeep(result, e, bMove, bMoveIndex);
  }

  /** Appending one entry after a concatenation. */
  lemma AppendAssoc<T>(front: seq<T>, back: seq<T>, e: T)
    ensures front + back + [e] == front + (back + [e])
  {
  }

  /** Concatenation is associative. */
  lemma AppendAssoc3<T>(x: seq<T>, y: seq<T>, z: seq<T>)
    ensures x + y + z == x + (y + z)
  {
  }

  /** A gap walks the old range with its deletions and the new range with its insertions. */
  lemma GapWalks(aLines: seq<string>, aLo: int, aHi: int, bLines: seq<string>, bLo: int, bHi: int)
    requires 0 <= aLo <= aHi <= |aLines| && 0 <= bLo <= bHi <= |bLines|
    ensures ANext(DeletedRun(aLines, aLo, aHi) + InsertedRun(bLines, bLo, bHi), aLo) == aHi
    ensures BNext(DeletedRun(aLines, aLo, aHi) + InsertedRun(bLines, bLo, bHi), bLo) == bHi
  {
    DeletedRunA(aLines, aLo, aHi);
    InsertedRunA(bLines, bLo, bHi, aHi);
    ANextConcat(DeletedRun(aLines, aLo, aHi), InsertedRun(bLines, bLo, bHi), aLo);
    DeletedRunB(aLines, aLo, aHi, bLo);
    InsertedRunB(bLines, bLo, bHi);
    BNextConcat(DeletedRun(aLines, aLo, aHi), InsertedRun(bLines, bLo, bHi), bLo);
  }

  /** Three pieces, each walking on from where the one before stopped, walk the old lines in one go. */
  lemma ANextJoin(x: seq<DiffLine>, y: seq<DiffLine>, z: seq<DiffLine>, s0: nat, s1: nat, s2: nat, s3: nat)
    requires ANext(x, s0) == s1 && ANext(y, s1) == s2 && ANext(z, s2) == s3
    ensures ANext(x + y + z, s0) == s3
  {
    ANextConcat(x, y, s0);
    ANextConcat(x + y, z, s0);
  }

  /** Three pieces, each walking on from where the one before stopped, walk the new lines in one go. */
  lemma BNextJoin(x: seq<DiffLine>, y: seq<DiffLine>, z: seq<DiffLine>, s0: nat, s1: nat, s2: nat, s3: nat)
    requires BNext(x, s0) == s1 && BNext(y, s1) == s2 && BNext(z, s2) == s3
    ensures BNext(x + y + z, s0) == s3
  {
    BNextConcat(x, y, s0);
    BNextConcat(x + y, z, s0);
  }

  /** The three stages of `addSubMatch` append their entries one after the other. */
  lemma SubMatchJoin(start: seq<DiffLine>, front: seq<DiffLine>, middle: seq<DiffLine>, back: seq<DiffLine>,
                     mid0: seq<DiffLine>, mid1: seq<DiffLine>, result: seq<DiffLine>)
    requires mid0 == start + front && mid1 == mid0 + middle && result == mid1 + back
    ensures result == start + (front + middle + back)
  {
  }

  /** The kept lines before, the middle, and the kept lines after walk the old range of `addSubMatch`. */
  lemma SubMatchWalksA(aLines: seq<string>, middle: seq<DiffLine>,
                       aStart0: int, aStart: int, aEnd: int, aEnd0: int,
                       bStart0: int, bStart: int, bEnd: int, bEnd0: int)
    requires 0 <= aStart0 <= aStart <= aEnd + 1 <= aEnd0 + 1 <= |aLines|
    requires aStart - aStart0 == bStart - bStart0 && aEnd0 - aEnd == bEnd0 - bEnd
    requires ANext(middle, aStart) == aEnd + 1
    ensures ANext(KeptRun(aLines, aStart0, aStart, bStart0, bStart) + middle
                  + KeptRun(aLines, aEnd + 1, aEnd0 + 1, bEnd + 1, bEnd0 + 1), aStart0) == aEnd0 + 1
  {
    var front := KeptRun(aLines, aStart0, aStart, bStart0, bStart);
    var back := KeptRun(aLines, aEnd + 1, aEnd0 + 1, bEnd + 1, bEnd0 + 1);
    KeptRunA(aLines, aStart0, aStart, bStart0, bStart);
    KeptRunA(aLines, aEnd + 1, aEnd0 + 1, bEnd + 1, bEnd0 + 1);
    ANextJoin(front, middle, back, aStart0, aStart, aEnd + 1, aEnd0 + 1);
  }

  /** The kept lines before, the middle, and the kept lines after walk the new range of `addSubMatch`. */
  lemma SubMatchWalksB(aLines: seq<string>, middle: seq<DiffLine>,
                       aStart0: int, aStart: int, aEnd: int, aEnd0: int,
                       bStart0: int, bStart: int, bEnd: int, bEnd0: int)
    requires 0 <= aStart0 <= aStart <= aEnd + 1 <= aEnd0 + 1 <= |aLines|
    requires 0 <= bStart0 <= bStart <= bEnd + 1 <= bEnd0 + 1
    requires aStart - aStart0 == bStart - bStart0 && aEnd0 - aEnd == bEnd0 - bEnd
    requires BNext(middle, bStart) == bEnd + 1
    ensures BNext(KeptRun(aLines, aStart0, aStart, bStart0, bStart) + middle
                  + KeptRun(aLines, aEnd + 1, aEnd0 + 1, bEnd + 1, bEnd0 + 1), bStart0) == bEnd0 + 1
  {
    var front := KeptRun(aLines, aStart0, aStart, bStart0, bStart);
    var back := KeptRun(aLines, aEnd + 1, aEnd0 + 1, bEnd + 1, bEnd0 + 1);
    KeptRunB(aLines, aStart0, aStart, bStart0, bStart);
    KeptRunB(aLines, aEnd + 1, aEnd0 + 1, bEnd + 1, bEnd0 + 1);
    BNextJoin(front, middle, back, bStart0, bStart, bEnd + 1, bEnd0 + 1);
  }

  /** The longest common subsequence of an anchor map is a chain of anchors. */
  lemma AnchorsChain(aLines: seq<string>, aStart: int, aEnd: int, bLines: seq<string>, bStart: int, bEnd: int,
                     m: LineMap<Subsequence>, lcs: seq<Subsequence>, picks: seq<nat>)
    requires AnchorMap(aLines, aStart, aEnd, bLines, bStart, bEnd, m)
    requires |picks| == |lcs|
    requires forall k :: 0 <= k < |lcs| ==>
      picks[k] < |m.vals| && lcs[k].aIndex == m.vals[picks[k]].aIndex && lcs[k].bIndex == m.vals[picks[k]].bIndex
    requires forall k :: 0 < k < |lcs| ==> lcs[k - 1].aIndex < lcs[k].aIndex && lcs[k - 1].bIndex < lcs[k].bIndex
    ensures AnchorChain(aLines, aStart, aEnd, bLines, bStart, bEnd, lcs)
  {
    forall k | 0 <= k < |lcs|
      ensures Anchors(aLines, aStart, aEnd, bLines, bStart, bEnd, lcs[k])
    {
      assert Anchors(aLines, aStart, aEnd, bLines, bStart, bEnd, m.vals[picks[k]]);
    }
  }

  /** A piece that walks on from where the entries so far stopped extends the walk of both sides. */
  lemma WalkOn(start: seq<DiffLine>, added: seq<DiffLine>, piece: seq<DiffLine>, aS: nat, bS: nat, a1: nat, b1: nat)
    requires ANext(added, aS) == a1 && BNext(added, bS) == b1
    ensures ANext(added + piece, aS) == ANext(piece, a1) && BNext(added + piece, bS) == BNext(piece, b1)
    ensures start + added + piece == start + (added + piece)
  {
    ANextConcat(added, piece, aS);
    BNextConcat(added, piece, bS);
  }

  /** The unique common lines `recurseLCS` splits at: anchors of the ranges, increasing on both sides. */
  ghost predicate AnchorChain(aLines: seq<string>, aStart: int, aEnd: int,
                              bLines: seq<string>, bStart: int, bEnd: int, lcs: seq<Subsequence>)
  {
    (forall k :: 0 <= k < |lcs| ==> Anchors(aLines, aStart, aEnd, bLines, bStart, bEnd, lcs[k]))
    && (forall k :: 0 < k < |lcs| ==> lcs[k - 1].aIndex < lcs[k].aIndex && lcs[k - 1].bIndex < lcs[k].bIndex)
  }

  /**
   * The state `patienceDiff` shares between its inner functions: the
   * entries so far, the counters, and the deleted and inserted lines with
   * their positions in `result`.
   */
  class Differ {
    const aLines: seq<string>
    const bLines: seq<string>
    var result: seq<DiffLine>
    var deleted: int
    var inserted: int
    var aMove: seq<string>
    var aMoveIndex: seq<int>
    var bMove: seq<string>
    var bMoveIndex: seq<int>

    /** The counters and the move lists agree with `result`. */
    ghost predicate Valid()
      reads this
    {
      Tracked(aLines, bLines, result, deleted, inserted, aMove, aMoveIndex, bMove, bMoveIndex)
    }

    constructor (aLines: seq<string>, bLines: seq<string>)
      ensures Valid() && this.aLines == aLines && this.bLines == bLines && result == []
    {
      this.aLines := aLines;
      this.bLines := bLines;
      result := [];
      deleted, inserted := 0, 0;
      aMove, aMoveIndex, bMove, bMoveIndex := [], [], [], [];
    }

    /**
     * `addToResult`: append the entry for `aIndex` and `bIndex` (-1 for an
     * absent side); a deletion or an insertion is also counted and listed.
     * Callers pair two indices only for equal lines.
     */
    method AddToResult(aIndex: int, bIndex: int)
      requires Valid()
      requires -1 <= aIndex < |aLines| && -1 <= bIndex < |bLines| && (aIndex >= 0 || bIndex >= 0)
      requires aIndex >= 0 && bIndex >= 0 ==> aLines[aIndex] == bLines[bIndex]
      modifies this
      ensures Valid()
      ensures result == old(result) +
        [DiffLine(if aIndex >= 0 then aLines[aIndex] else bLines[bIndex], aIndex, bIndex, false)]
    {
      var e := DiffLine(if 0 <= aIndex then aLines[aIndex] else bLines[bIndex], aIndex, bIndex, false);
      if bIndex < 0 {
        TrackedDeletion(aLines, bLines, result, deleted, inserted, aMove, aMoveIndex, bMove, bMoveIndex, e);
        aMove := aMove + [aLines[aIndex]];
        aMoveIndex := aMoveIndex + [|result|];
        deleted := deleted + 1;
      } else if aIndex < 0 {
        TrackedInsertion(aLines, bLines, result, deleted, inserted, aMove, aMoveIndex, bMove, bMoveIndex, e);
        bMove := bMove + [bLines[bIndex]];
        bMoveIndex := bMoveIndex + [|result|];
        inserted := inserted + 1;
      } else {
        TrackedKept(aLines, bLines, result, deleted, inserted, aMove, aMoveIndex, bMove, bMoveIndex, e);
      }
      result := result + [e];
    }

    /**
     * `addSubMatch`: the diff of `aLines[aStart0..aEnd0]` against
     * `bLines[bStart0..bEnd0]` (inclusive bounds). Equal leading lines are
     * kept, equal trailing lines are set aside, the middle is either one
     * gap or, when it has unique common lines, split at them; then the
     * trailing lines are kept. The entries `added` walk both ranges in
     * order, each line once.
     */
    method AddSubMatch(aStart0: int, aEnd0: int, bStart0: int, bEnd0: int) returns (ghost added: seq<DiffLine>)
      requires Valid()
      requires 0 <= aStart0 <= aEnd0 + 1 <= |aLines| && 0 <= bStart0 <= bEnd0 + 1 <= |bLines|
      modifies this
      decreases (aEnd0 - aStart0 + 1) + (bEnd0 - bStart0 + 1), 3
      ensures Valid()
      ensures result == old(result) + added
      ensures ANext(added, aStart0) == aEnd0 + 1 && BNext(added, bStart0) == bEnd0 + 1
    {
      var aStart, bStart := MatchPrefix(aStart0, aEnd0, bStart0, bEnd0);
      ghost var front := KeptRun(aLines, aStart0, aStart, bStart0, bStart);
      var aEnd, bEnd := TrimSuffix(aStart, aEnd0, bStart, bEnd0);
      // The middle: one gap, or split at the unique common lines.
      ghost var middle: seq<DiffLine>;
      ghost var mid0 := result;
      var uniqueCommonMap := UniqueCommon(aLines, aStart, aEnd, bLines, bStart, bEnd);
      if uniqueCommonMap.Size() == 0 {
        middle := AddGap(aStart, aEnd, bStart, bEnd);
      } else {
        middle := RecurseLCS(aStart, aEnd, bStart, bEnd, uniqueCommonMap);
      }
      ghost var mid1 := result;
      KeepSuffix(aEnd, aEnd0, bEnd, bEnd0);
      ghost var back := KeptRun(aLines, aEnd + 1, aEnd0 + 1, bEnd + 1, bEnd0 + 1);
      added := front + middle + back;
      SubMatchJoin(old(result), front, middle, back, mid0, mid1, result);
      SubMatchWalksA(aLines, middle, aStart0, aStart, aEnd, aEnd0, bStart0, bStart, bEnd, bEnd0);
      SubMatchWalksB(aLines, middle, aStart0, aStart, aEnd, aEnd0, bStart0, bStart, bEnd, bEnd0);
    }

    /** The first loop of `addSubMatch`: keep the equal lines at the start of the ranges. */
    method MatchPrefix(aStart0: int, aEnd: int, bStart0: int, bEnd: int) returns (aStart: int, bStart: int)
      requires Valid()
      requires 0 <= aStart0 <= aEnd + 1 <= |aLines| && 0 <= bStart0 <= bEnd + 1 <= |bLines|
      modifies this
      ensures Valid()
      ensures aStart0 <= aStart <= aEnd + 1 && bStart0 <= bStart <= bEnd + 1
      ensures bStart - bStart0 == aStart - aStart0
      ensures HeadsDiffer(aLines, aStart, aEnd, bLines, bStart, bEnd)
      ensures result == old(result) + KeptRun(aLines, aStart0, aStart, bStart0, bStart)
    {
      aStart, bStart := aStart0, bStart0;
      ghost var start := result;
      while aStart <= aEnd && bStart <= bEnd && aLines[aStart] == bLines[bStart]
        invariant Valid()
        invariant aStart0 <= aStart <= aEnd + 1 && bStart0 <= bStart <= bEnd + 1
        invariant bStart - bStart0 == aStart - aStart0
        invariant result == start + KeptRun(aLines, aStart0, aStart, bStart0, bStart)
      {
        ghost var kept := KeptRun(aLines, aStart0, aStart, bStart0, bStart);
        ghost var e := DiffLine(aLines[aStart], aStart, bStart, false);
        assert KeptRun(aLines, aStart0, aStart + 1, bStart0, bStart + 1) == kept + [e];
        AppendAssoc(start, kept, e);
        AddToResult(aStart, bStart);
        aStart, bStart := aStart + 1, bStart + 1;
      }
    }

    /**
     * The second loop of `addSubMatch`: set aside the equal lines at the
     * end of the ranges, never reaching into what the first loop kept.
     */
    method TrimSuffix(aStart: int, aEnd0: int, bStart: int, bEnd0: int) returns (aEnd: int, bEnd: int)
      requires 0 <= aStart <= aEnd0 + 1 <= |aLines| && 0 <= bStart <= bEnd0 + 1 <= |bLines|
      requires HeadsDiffer(aLines, aStart, aEnd0, bLines, bStart, bEnd0)
      ensures aStart - 1 <= aEnd <= aEnd0 && bStart - 1 <= bEnd <= bEnd0
      ensures aEnd0 - aEnd == bEnd0 - bEnd
      ensures forall k :: aEnd < k <= aEnd0 ==> aLines[k] == bLines[k + (bEnd0 - aEnd0)]
      ensures aStart <= aEnd && bStart <= bEnd ==> aLines[aEnd] != bLines[bEnd]
      ensures HeadsDiffer(aLines, aStart, aEnd, bLines, bStart, bEnd)
    {
      aEnd, bEnd := aEnd0, bEnd0;
      while aStart <= aEnd && bStart <= bEnd && aLines[aEnd] == bLines[bEnd]
        invariant aStart - 1 <= aEnd <= aEnd0 && bStart - 1 <= bEnd <= bEnd0
        invariant aEnd0 - aEnd == bEnd0 - bEnd
        invariant forall k :: aEnd < k <= aEnd0 ==> aLines[k] == bLines[k + (bEnd0 - aEnd0)]
        invariant HeadsDiffer(aLines, aStart, aEnd, bLines, bStart, bEnd)
      {
        aEnd, bEnd := aEnd - 1, bEnd - 1;
      }
    }

    /** The last loop of `addSubMatch`: keep the lines set aside at the end. */
    method KeepSuffix(aEnd0: int, aEndTemp: int, bEnd0: int, bEndTemp: int)
      requires Valid()
      requires -1 <= aEnd0 <= aEndTemp < |aLines| && -1 <= bEnd0 && bEndTemp - bEnd0 == aEndTemp - aEnd0
      requires bEndTemp < |bLines|
      requires forall k :: aEnd0 < k <= aEndTemp ==> aLines[k] == bLines[k + (bEndTemp - aEndTemp)]
      modifies this
      ensures Valid()
      ensures result == old(result) + KeptRun(aLines, aEnd0 + 1, aEndTemp + 1, bEnd0 + 1, bEndTemp + 1)
    {
      var aEnd, bEnd := aEnd0, bEnd0;
      ghost var start := result;
      while aEnd < aEndTemp
        invariant Valid()
        invariant aEnd0 <= aEnd <= aEndTemp && bEnd - bEnd0 == aEnd - aEnd0
        invariant result == start + KeptRun(aLines, aEnd0 + 1, aEnd + 1, bEnd0 + 1, bEnd + 1)
      {
        ghost var kept := KeptRun(aLines, aEnd0 + 1, aEnd + 1, bEnd0 + 1, bEnd + 1);
        ghost var e := DiffLine(aLines[aEnd + 1], aEnd + 1, bEnd + 1, false);
        assert KeptRun(aLines, aEnd0 + 1, aEnd + 2, bEnd0 + 1, bEnd + 2) == kept + [e];
        AppendAssoc(start, kept, e);
        aEnd, bEnd := aEnd + 1, bEnd + 1;
        AddToResult(aEnd, bEnd);
      }
    }

    /**
     * `recurseLCS`: split the ranges at the longest common subsequence of
     * their unique common lines and diff the pieces between consecutive
     * anchors, each starting with its anchor; without common lines the
     * ranges go to `addSubMatch` whole. The entries `added` walk both
     * ranges in order, each line once.
     */
    method RecurseLCS(aStart: int, aEnd: int, bStart: int, bEnd: int, uniqueCommonMap: LineMap<Subsequence>)
      returns (ghost added: seq<DiffLine>)
      requires Valid()
      requires 0 <= aStart <= aEnd + 1 <= |aLines| && 0 <= bStart <= bEnd + 1 <= |bLines|
      requires AnchorMap(aLines, aStart, aEnd, bLines, bStart, bEnd, uniqueCommonMap)
      modifies this
      decreases (aEnd - aStart + 1) + (bEnd - bStart + 1),
        if uniqueCommonMap.Size() > 0 && HeadsDiffer(aLines, aStart, aEnd, bLines, bStart, bEnd) then 2 else 6
      ensures Valid()
      ensures result == old(result) + added
      ensures ANext(added, aStart) == aEnd + 1 && BNext(added, bStart) == bEnd + 1
    {
      var lcs, picks := LongestCommonSubsequence(uniqueCommonMap);
      if |lcs| == 0 {
        added := AddSubMatch(aStart, aEnd, bStart, bEnd);
      } else {
        AnchorsChain(aLines, aStart, aEnd, bLines, bStart, bEnd, uniqueCommonMap, lcs, picks);
        added := SplitAtChain(aStart, aEnd, bStart, bEnd, lcs);
      }
    }

    /**
     * The non-empty case of `recurseLCS`: diff the piece before the first
     * anchor of `lcs`, the pieces between anchors, and the piece from the
     * last anchor to the end of the ranges.
     */
    method SplitAtChain(aStart: int, aEnd: int, bStart: int, bEnd: int, lcs: seq<Subsequence>)
      returns (ghost added: seq<DiffLine>)
      requires Valid() && |lcs| > 0
      requires 0 <= aStart <= aEnd + 1 <= |aLines| && 0 <= bStart <= bEnd + 1 <= |bLines|
      requires AnchorChain(aLines, aStart, aEnd, bLines, bStart, bEnd, lcs)
      modifies this
      decreases (aEnd - aStart + 1) + (bEnd - bStart + 1),
        if HeadsDiffer(aLines, aStart, aEnd, bLines, bStart, bEnd) then 1 else 5
      ensures Valid()
      ensures result == old(result) + added
      ensures ANext(added, aStart) == aEnd + 1 && BNext(added, bStart) == bEnd + 1
    {
      added := [];
      if aStart < lcs[0].aIndex || bStart < lcs[0].bIndex {
        added := AddSubMatch(aStart, lcs[0].aIndex - 1, bStart, lcs[0].bIndex - 1);
      } else {
        assert old(result) + added == old(result);
      }
      ghost var between := AddBetweenAnchors(aStart, aEnd, bStart, bEnd, lcs);
      WalkOn(old(result), added, between, aStart, bStart, lcs[0].aIndex, lcs[0].bIndex);
      added := added + between;
      var last := lcs[|lcs| - 1];
      if last.aIndex <= aEnd || last.bIndex <= bEnd {
        ghost var piece := AddSubMatch(last.aIndex, aEnd, last.bIndex, bEnd);
        WalkOn(old(result), added, piece, aStart, bStart, last.aIndex, last.bIndex);
        added := added + piece;
      }
    }

    /**
     * The loop of `recurseLCS`: diff the pieces from each anchor of `lcs`
     * up to the next one.
     */
    method AddBetweenAnchors(aStart: int, aEnd: int, bStart: int, bEnd: int, lcs: seq<Subsequence>)
      returns (ghost added: seq<DiffLine>)
      requires Valid() && |lcs| > 0
      requires 0 <= aStart <= aEnd + 1 <= |aLines| && 0 <= bStart <= bEnd + 1 <= |bLines|
      requires AnchorChain(aLines, aStart, aEnd, bLines, bStart, bEnd, lcs)
      modifies this
      decreases (aEnd - aStart + 1) + (bEnd - bStart + 1), 0
      ensures Valid()
      ensures result == old(result) + added
      ensures ANext(added, lcs[0].aIndex) == lcs[|lcs| - 1].aIndex
      ensures BNext(added, lcs[0].bIndex) == lcs[|lcs| - 1].bIndex
    {
      added := [];
      var i := 0;
      while i < |lcs| - 1
        invariant 0 <= i <= |lcs| - 1
        invariant Valid()
        invariant result == old(result) + added
        invariant ANext(added, lcs[0].aIndex) == lcs[i].aIndex && BNext(added, lcs[0].bIndex) == lcs[i].bIndex
      {
        ghost var piece := AddSubMatch(lcs[i].aIndex, lcs[i + 1].aIndex - 1, lcs[i].bIndex, lcs[i + 1].bIndex - 1);
        WalkOn(old(result), added, piece, lcs[0].aIndex, lcs[0].bIndex, lcs[i].aIndex, lcs[i].bIndex);
        added := added + piece;
        i := i + 1;
      }
    }

    /**
     * The gap of `addSubMatch` without unique common lines: every line of
     * the old range as a deletion, then every line of the new range as an
     * insertion.
     */
    method AddGap(aStart: int, aEnd: int, bStart: int, bEnd: int) returns (ghost added: seq<DiffLine>)
      requires Valid()
      requires 0 <= aStart <= aEnd + 1 <= |aLines| && 0 <= bStart <= bEnd + 1 <= |bLines|
      modifies this
      ensures Valid()
      ensures added == DeletedRun(aLines, aStart, aEnd + 1) + InsertedRun(bLines, bStart, bEnd + 1)
      ensures result == old(result) + added
      ensures ANext(added, aStart) == aEnd + 1 && BNext(added, bStart) == bEnd + 1
    {
      AddDeletions(aStart, aEnd);
      AddInsertions(bStart, bEnd);
      added := DeletedRun(aLines, aStart, aEnd + 1) + InsertedRun(bLines, bStart, bEnd + 1);
      AppendAssoc3(old(result), DeletedRun(aLines, aStart, aEnd + 1), InsertedRun(bLines, bStart, bEnd + 1));
      GapWalks(aLines, aStart, aEnd + 1, bLines, bStart, bEnd + 1);
    }

    /** The first loop of a gap: the old range as deletions. */
    method AddDeletions(aStart0: int, aEnd: int)
      requires Valid()
      requires 0 <= aStart0 <= aEnd + 1 <= |aLines|
      modifies this
      ensures Valid()
      ensures result == old(result) + DeletedRun(aLines, aStart0, aEnd + 1)
    {
      var aStart := aStart0;
      ghost var start := result;
      while aStart <= aEnd
        invariant Valid()
        invariant aStart0 <= aStart <= aEnd + 1
        invariant result == start + DeletedRun(aLines, aStart0, aStart)
      {
        ghost var run := DeletedRun(aLines, aStart0, aStart);
        ghost var e := DiffLine(aLines[aStart], aStart, -1, false);
        assert DeletedRun(aLines, aStart0, aStart + 1) == run + [e];
        AppendAssoc(start, run, e);
        AddToResult(aStart, -1);
        aStart := aStart + 1;
      }
    }

    /** The second loop of a gap: the new range as insertions. */
    method AddInsertions(bStart0: int, bEnd: int)
      requires Valid()
      requires 0 <= bStart0 <= bEnd + 1 <= |bLines|
      modifies this
      ensures Valid()
      ensures result == old(result) + InsertedRun(bLines, bStart0, bEnd + 1)
    {
      var bStart := bStart0;
      ghost var start := result;
      while bStart <= bEnd
        invariant Valid()
        invariant bStart0 <= bStart <= bEnd + 1
        invariant result == start + InsertedRun(bLines, bStart0, bStart)
      {
        ghost var run := InsertedRun(bLines, bStart0, bStart);
        ghost var e := DiffLine(bLines[bStart], -1, bStart, false);
        assert InsertedRun(bLines, bStart0, bStart + 1) == run + [e];
        AppendAssoc(start, run, e);
        AddToResult(-1, bStart);
        bStart := bStart + 1;
      }
    }
  }

  /**
   * `lines` is a diff of `aLines` against `bLines`: entries `addToResult`
   * makes, walking all old lines and all new lines in order.
   */
  ghost predicate Diffs(aLines: seq<string>, bLines: seq<string>, lines: seq<DiffLine>)
  {
    Entries(lines, aLines, bLines) && ANext(lines, 0) == |aLines| && BNext(lines, 0) == |bLines|
  }

  /** A diff shows both sides whole: its old-side entries are `aLines`, its new-side entries `bLines`. */
  lemma DiffShowsBothSides(aLines: seq<string>, bLines: seq<string>, lines: seq<DiffLine>)
    requires Diffs(aLines, bLines, lines)
    ensures OldSide(lines) == aLines && NewSide(lines) == bLines
  {
    OldSideWalk(lines, aLines, bLines, 0);
    NewSideWalk(lines, aLines, bLines, 0);
    assert aLines[0..|aLines|] == aLines && bLines[0..|bLines|] == bLines;
  }

  /**
   * `patienceDiff`: the diff of `aLines` against `bLines`. Without `plus`
   * it is the diff `base` itself with its deletion and insertion counts;
   * with `plus`, deletions and insertions of the same lines in `base` are
   * then paired as moves.
   */
  method PatienceDiff(aLines: seq<string>, bLines: seq<string>, plus: bool)
    returns (d: Difference, ghost base: seq<DiffLine>)
    decreases if plus then 2 else 0
    ensures Diffs(aLines, bLines, base)
    ensures Counted(d.lines, d.lineCountDeleted, d.lineCountInserted, d.lineCountMoved)
    ensures !plus ==> d.lines == base && d.lineCountMoved == 0
    ensures plus ==> MovedFrom(base, d.lines)
    ensures d.lineCountDeleted + d.lineCountMoved == |Deletions(base)|
    ensures d.lineCountInserted + d.lineCountMoved == |Insertions(base)|
  {
    var differ := DiffLines(aLines, bLines);
    base := differ.result;
    forall k | 0 <= k < |base| ensures !base[k].moved {
      assert Entry(base[k], aLines, bLines);
    }
    UnmovedFromSelf(base);
    UnmovedCounts(base);
    if !plus {
      d := Difference(differ.result, differ.deleted, differ.inserted, 0);
      return;
    }
    PendingStart(base, aLines, bLines, differ.aMove, differ.bMove);
    var pass := new MovePass(base, differ.result, differ.deleted, differ.inserted,
                             differ.aMove, differ.aMoveIndex, differ.bMove, differ.bMoveIndex);
    pass.Run();
    d := Difference(pass.lines, pass.deleted, pass.inserted, pass.moved);
  }

  /**
   * The diff without moves: `recurseLCS` over both arrays whole, starting
   * from their unique common lines.
   */
  method DiffLines(aLines: seq<string>, bLines: seq<string>) returns (differ: Differ)
    ensures differ.Valid() && differ.aLines == aLines && differ.bLines == bLines
    ensures Diffs(aLines, bLines, differ.result)
  {
    differ := new Differ(aLines, bLines);
    var uniqueCommonMap := UniqueCommon(aLines, 0, |aLines| - 1, bLines, 0, |bLines| - 1);
    ghost var added := differ.RecurseLCS(0, |aLines| - 1, 0, |bLines| - 1, uniqueCommonMap);
    assert differ.result == added;
  }

  /**
   * The `difference` object of the move pass, which the pass updates in
   * place, and the lists of the lines still unpaired after a round.
   */
  class MovePass {
    ghost const base: seq<DiffLine>
    var lines: seq<DiffLine>
    var deleted: int
    var inserted: int
    var moved: int
    var aMoveNext: seq<string>
    var aMoveIndexNext: seq<int>
    var bMoveNext: seq<string>
    var bMoveIndexNext: seq<int>

    /** `lines` is `base` with moves paired, counted, and the unpaired lines are listed. */
    ghost predicate Valid()
      reads this
    {
      MovedFrom(base, lines) && Counted(lines, deleted, inserted, moved)
      && Pending(lines, aMoveNext, aMoveIndexNext, 0, IsDeletion)
      && Pending(lines, bMoveNext, bMoveIndexNext, 0, IsOpenInsertion)
    }

    /** The state within a round, after the sub-diff walked `aMove` to `cA` and `bMove` to `cB`. */
    ghost predicate InRound(aMove: seq<string>, aMoveIndex: seq<int>, cA: nat,
                            bMove: seq<string>, bMoveIndex: seq<int>, cB: nat)
      reads this
    {
      Round(base, lines, deleted, inserted, moved, aMove, aMoveIndex, cA, bMove, bMoveIndex, cB,
            aMoveNext, aMoveIndexNext, bMoveNext, bMoveIndexNext)
    }

    /** The diff `patienceDiff` built, with all its deletions and insertions unpaired. */
    constructor (ghost base: seq<DiffLine>, lines: seq<DiffLine>, deleted: int, inserted: int,
                 aMove: seq<string>, aMoveIndex: seq<int>, bMove: seq<string>, bMoveIndex: seq<int>)
      requires MovedFrom(base, lines) && Counted(lines, deleted, inserted, 0)
      requires Pending(lines, aMove, aMoveIndex, 0, IsDeletion)
      requires Pending(lines, bMove, bMoveIndex, 0, IsOpenInsertion)
      ensures Valid() && this.base == base
      ensures this.deleted == deleted && this.inserted == inserted && moved == 0
    {
      this.base := base;
      this.lines := lines;
      this.deleted, this.inserted, this.moved := deleted, inserted, 0;
      aMoveNext, aMoveIndexNext := aMove, aMoveIndex;
      bMoveNext, bMoveIndexNext := bMove, bMoveIndex;
    }

    /**
     * The rounds of the move pass: diff the unpaired deleted lines against
     * the unpaired inserted lines, pair what that sub-diff keeps, and go on
     * while a round pairs something.
     */
    method Run()
      requires Valid()
      modifies this
      decreases 1
      ensures Valid()
      ensures deleted + moved == old(deleted + moved) && inserted + moved == old(inserted + moved)
    {
      while true
        invariant Valid()
        invariant deleted + moved == old(deleted + moved) && inserted + moved == old(inserted + moved)
        decreases |aMoveNext|
      {
        var aMove, aMoveIndex, bMove, bMoveIndex := aMoveNext, aMoveIndexNext, bMoveNext, bMoveIndexNext;
        aMoveNext, aMoveIndexNext, bMoveNext, bMoveIndexNext := [], [], [], [];
        RoundStart(base, lines, deleted, inserted, moved, aMove, aMoveIndex, bMove, bMoveIndex,
                   aMoveNext, aMoveIndexNext, bMoveNext, bMoveIndexNext);
        ghost var subBase;
        var subDiff;
        subDiff, subBase := PatienceDiff(aMove, bMove, false);
        var lastMoved := moved;
        PairRound(aMove, aMoveIndex, bMove, bMoveIndex, subDiff.lines);
        if !(0 < moved - lastMoved) {
          break;
        }
      }
    }

    /**
     * One round: walk the sub-diff of `aMove` against `bMove`, pairing each
     * kept line and listing each deleted or inserted line for the next round.
     */
    method PairRound(aMove: seq<string>, aMoveIndex: seq<int>, bMove: seq<string>, bMoveIndex: seq<int>,
                     sub: seq<DiffLine>)
      requires InRound(aMove, aMoveIndex, 0, bMove, bMoveIndex, 0) && aMoveNext == [] && bMoveNext == []
      requires Diffs(aMove, bMove, sub)
      modifies this
      ensures Valid()
      ensures |aMoveNext| + (moved - old(moved)) == |aMove|
      ensures deleted + moved == old(deleted + moved) && inserted + moved == old(inserted + moved)
    {
      ghost var ca := AWalk(sub, 0);
      ghost var cb := BWalk(sub, 0);
      var j := 0;
      while j < |sub|
        invariant 0 <= j <= |sub|
        invariant ca[j] >= 0 && cb[j] >= 0
        invariant InRound(aMove, aMoveIndex, ca[j], bMove, bMoveIndex, cb[j])
        invariant |aMoveNext| + (moved - old(moved)) == ca[j] && |bMoveNext| + (moved - old(moved)) == cb[j]
        invariant deleted + moved == old(deleted + moved) && inserted + moved == old(inserted + moved)
      {
        var value := sub[j];
        assert Entry(value, aMove, bMove);
        assert AStep(value, ca[j], ca[j + 1]) && BStep(value, cb[j], cb[j + 1]);
        PairEntry(aMove, aMoveIndex, bMove, bMoveIndex, value, ca[j], ca[j + 1], cb[j], cb[j + 1]);
        j := j + 1;
      }
      RoundEnd(base, lines, deleted, inserted, moved, aMove, aMoveIndex, ca[j], bMove, bMoveIndex, cb[j],
               aMoveNext, aMoveIndexNext, bMoveNext, bMoveIndexNext);
    }

    /**
     * The callback the round applies to each entry `value` of the sub-diff,
     * which walks `aMove` from `cA` to `cA2` and `bMove` from `cB` to `cB2`:
     * a kept line becomes a move, a deleted or inserted line is listed for
     * the next round.
     */
    method PairEntry(aMove: seq<string>, aMoveIndex: seq<int>, bMove: seq<string>, bMoveIndex: seq<int>,
                     value: DiffLine, ghost cA: nat, ghost cA2: nat, ghost cB: nat, ghost cB2: nat)
      requires InRound(aMove, aMoveIndex, cA, bMove, bMoveIndex, cB)
      requires Entry(value, aMove, bMove) && AStep(value, cA, cA2) && BStep(value, cB, cB2)
      modifies this
      ensures InRound(aMove, aMoveIndex, cA2, bMove, bMoveIndex, cB2)
      ensures moved == old(moved) + (if value.aIndex >= 0 && value.bIndex >= 0 then 1 else 0)
      ensures deleted + moved == old(deleted + moved) && inserted + moved == old(inserted + moved)
      ensures |aMoveNext| == |old(aMoveNext)| + (if value.bIndex < 0 then 1 else 0)
      ensures |bMoveNext| == |old(bMoveNext)| + (if value.aIndex < 0 then 1 else 0)
    {
      if 0 <= value.aIndex && 0 <= value.bIndex {
        PairLines(aMove, aMoveIndex, value.aIndex, bMove, bMoveIndex, value.bIndex);
      } else if value.bIndex < 0 {
        ListDeletion(aMove, aMoveIndex, value.aIndex, bMove, bMoveIndex, cB);
      } else {
        ListInsertion(aMove, aMoveIndex, cA, bMove, bMoveIndex, value.bIndex);
      }
    }

    /** A kept line of the sub-diff: the deletion and the insertion it joins become a move. */
    method PairLines(aMove: seq<string>, aMoveIndex: seq<int>, cA: nat,
                     bMove: seq<string>, bMoveIndex: seq<int>, cB: nat)
      requires InRound(aMove, aMoveIndex, cA, bMove, bMoveIndex, cB)
      requires cA < |aMove| && cB < |bMove| && aMove[cA] == bMove[cB]
      modifies this
      ensures InRound(aMove, aMoveIndex, cA + 1, bMove, bMoveIndex, cB + 1)
      ensures moved == old(moved) + 1
      ensures deleted == old(deleted) - 1 && inserted == old(inserted) - 1
      ensures |aMoveNext| == |old(aMoveNext)| && |bMoveNext| == |old(bMoveNext)|
    {
      RoundPair(base, lines, deleted, inserted, moved, aMove, aMoveIndex, cA, bMove, bMoveIndex, cB,
                aMoveNext, aMoveIndexNext, bMoveNext, bMoveIndexNext);
      var p, q := aMoveIndex[cA], bMoveIndex[cB];
      lines := MoveLine(lines, p, q);
      inserted, deleted, moved := inserted - 1, deleted - 1, moved + 1;
    }

    /** A deleted line of the sub-diff stays unpaired for the next round. */
    method ListDeletion(aMove: seq<string>, aMoveIndex: seq<int>, cA: nat,
                        bMove: seq<string>, bMoveIndex: seq<int>, ghost cB: nat)
      requires InRound(aMove, aMoveIndex, cA, bMove, bMoveIndex, cB) && cA < |aMove|
      modifies this
      ensures InRound(aMove, aMoveIndex, cA + 1, bMove, bMoveIndex, cB)
      ensures moved == old(moved) && deleted == old(deleted) && inserted == old(inserted)
      ensures |aMoveNext| == |old(aMoveNext)| + 1 && |bMoveNext| == |old(bMoveNext)|
    {
      RoundDeletion(base, lines, deleted, inserted, moved, aMove, aMoveIndex, cA, bMove, bMoveIndex, cB,
                    aMoveNext, aMoveIndexNext, bMoveNext, bMoveIndexNext);
      aMoveNext := aMoveNext + [aMove[cA]];
      aMoveIndexNext := aMoveIndexNext + [aMoveIndex[cA]];
    }

    /** An inserted line of the sub-diff stays unpaired for the next round. */
    method ListInsertion(aMove: seq<string>, aMoveIndex: seq<int>, ghost cA: nat,
                         bMove: seq<string>, bMoveIndex: seq<int>, cB: nat)
      requires InRound(aMove, aMoveIndex, cA, bMove, bMoveIndex, cB) && cB < |bMove|
      modifies this
      ensures InRound(aMove, aMoveIndex, cA, bMove, bMoveIndex, cB + 1)
      ensures moved == old(moved) && deleted == old(deleted) && inserted == old(inserted)
      ensures |aMoveNext| == |old(aMoveNext)| && |bMoveNext| == |old(bMoveNext)| + 1
    {
      RoundInsertion(base, lines, deleted, inserted, moved, aMove, aMoveIndex, cA, bMove, bMoveIndex, cB,
                     aMoveNext, aMoveIndexNext, bMoveNext, bMoveIndexNext);
      bMoveNext := bMoveNext + [bMove[cB]];
      bMoveIndexNext := bMoveIndexNext + [bMoveIndex[cB]];
    }
  }
}
