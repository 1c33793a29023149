/**
 * What the move pass of `patienceDiff` (its `plus` mode) does to a diff:
 * it pairs a deletion with an insertion of the same line, marks both as
 * moved and points the insertion at the deletion's position, and keeps
 * the lines still unpaired in two lists for the next round.
 */
module DiffMoves {
  import opened DiffEntries

  /** An insertion a move pass has paired with a deletion. */
  predicate IsMovedInsertion(e: DiffLine)
  {
    e.bIndex >= 0 && e.moved
  }

  /** An insertion no move pass has paired yet. */
  predicate IsOpenInsertion(e: DiffLine)
  {
    e.aIndex < 0 && e.bIndex >= 0 && !e.moved
  }

  /**
   * Entry `e` of the moved diff `lines` and the entry `b` at the same
   * position before any move: same line and new-side index; an unpaired
   * entry is unchanged; a moved deletion keeps its old-side index; a moved
   * insertion was an insertion and now points at a moved deletion of the
   * same line.
   */
  ghost predicate MovedEntry(b: DiffLine, e: DiffLine, lines: seq<DiffLine>)
  {
    e.line == b.line && e.bIndex == b.bIndex
    && (!e.moved ==> e == b)
    && (e.moved && e.bIndex < 0 ==> e.aIndex == b.aIndex)
    && (IsMovedInsertion(e) ==>
          b.aIndex < 0 && 0 <= e.aIndex < |lines|
          && IsMove(lines[e.aIndex]) && lines[e.aIndex].line == e.line)
  }

  /**
   * `lines` is `base` after pairing moves: entry by entry as `MovedEntry`
   * says, and no two moved insertions point at the same deletion.
   */
  ghost predicate MovedFrom(base: seq<DiffLine>, lines: seq<DiffLine>)
  {
    |lines| == |base|
    && (forall k :: 0 <= k < |lines| ==> MovedEntry(base[k], lines[k], lines))
    && (forall j, k :: 0 <= j < |lines| && 0 <= k < |lines| && j != k
          && IsMovedInsertion(lines[j]) && IsMovedInsertion(lines[k])
          ==> lines[j].aIndex != lines[k].aIndex)
  }

  /**
   * The counters of a moved diff: unpaired deletions, unpaired insertions,
   * and the moves, counted once among the deletions and once among the
   * insertions.
   */
  ghost predicate Counted(lines: seq<DiffLine>, deleted: int, inserted: int, moved: int)
  {
    deleted == |Deletions(lines)| && inserted == |Insertions(lines)|
    && moved == |Moves(lines)| && moved == |Positions(lines, IsMovedInsertion)|
  }

  /** One pairing: the deletion at `p` and the insertion at `q` become a move. */
  function MoveLine(lines: seq<DiffLine>, p: int, q: int): (r: seq<DiffLine>)
    requires 0 <= p < |lines| && 0 <= q < |lines|
    ensures |r| == |lines|
  {
    lines[p := lines[p].(moved := true)][q := lines[q].(aIndex := p, moved := true)]
  }

  /** A move list: positions of entries satisfying `f`, from `from` on, with their lines; positions increase. */
  ghost predicate Pending(lines: seq<DiffLine>, moves: seq<string>, moveIndex: seq<int>, from: nat,
                          f: DiffLine -> bool)
  {
    |moves| == |moveIndex|
    && (forall k :: from <= k < |moves| ==>
          0 <= moveIndex[k] < |lines| && f(lines[moveIndex[k]]) && lines[moveIndex[k]].line == moves[k])
    && (forall j, k :: 0 <= j < k < |moveIndex| ==> moveIndex[j] < moveIndex[k])
  }

  /** Every position of `next` comes before the positions of `moveIndex` from `from` on. */
  ghost predicate Below(next: seq<int>, moveIndex: seq<int>, from: nat)
  {
    forall j, k :: 0 <= j < |next| && from <= k < |moveIndex| ==> next[j] < moveIndex[k]
  }

  /** A diff without moved entries is its own moved form. */
  lemma UnmovedFromSelf(lines: seq<DiffLine>)
    requires forall k :: 0 <= k < |lines| ==> !lines[k].moved
    ensures MovedFrom(lines, lines)
  {
  }

  /** A diff without moved entries counts no moves. */
  lemma UnmovedCounts(lines: seq<DiffLine>)
    requires forall k :: 0 <= k < |lines| ==> !lines[k].moved
    ensures |Moves(lines)| == 0 && |Positions(lines, IsMovedInsertion)| == 0
  {
    PositionsNone(lines, IsMove);
    PositionsNone(lines, IsMovedInsertion);
  }

  /** No entry satisfies `f`: no positions. */
  lemma {:induction false} PositionsNone(lines: seq<DiffLine>, f: DiffLine -> bool)
    requires forall k :: 0 <= k < |lines| ==> !f(lines[k])
    ensures Positions(lines, f) == []
  {
    if lines != [] {
      PositionsNone(lines[..|lines| - 1], f);
    }
  }

  /** The deletions and the insertions of a diff, read as move lists. */
  lemma PendingStart(lines: seq<DiffLine>, aLines: seq<string>, bLines: seq<string>,
                     aMove: seq<string>, bMove: seq<string>)
    requires Entries(lines, aLines, bLines)
    requires |aMove| == |Deletions(lines)|
    requires forall k :: 0 <= k < |aMove| ==> aMove[k] == lines[Deletions(lines)[k]].line
    requires |bMove| == |Insertions(lines)|
    requires forall k :: 0 <= k < |bMove| ==> bMove[k] == lines[Insertions(lines)[k]].line
    ensures Pending(lines, aMove, Deletions(lines), 0, IsDeletion)
    ensures Pending(lines, bMove, Insertions(lines), 0, IsOpenInsertion)
  {
    var ins := Insertions(lines);
    forall k | 0 <= k < |ins| ensures IsOpenInsertion(lines[ins[k]]) {
      assert Entry(lines[ins[k]], aLines, bLines);
    }
  }

  /** A move list survives changes at positions it does not hold from `from` on. */
  lemma PendingAvoid(lines: seq<DiffLine>, l2: seq<DiffLine>, moves: seq<string>, moveIndex: seq<int>,
                     from0: nat, from: nat, f: DiffLine -> bool, x: int, y: int)
    requires Pending(lines, moves, moveIndex, from0, f) && from0 <= from
    requires |l2| == |lines| && 0 <= y < |lines| && !f(lines[y])
    requires forall i :: 0 <= i < |lines| && i != x && i != y ==> l2[i] == lines[i]
    requires forall k :: from <= k < |moves| ==> moveIndex[k] != x
    ensures Pending(l2, moves, moveIndex, from, f)
  {
    forall k | from <= k < |moves|
      ensures 0 <= moveIndex[k] < |l2| && f(l2[moveIndex[k]]) && l2[moveIndex[k]].line == moves[k]
    {
      assert moveIndex[k] != y;
    }
  }

  /** A move list extended by a later position that satisfies `f`. */
  lemma PendingPush(lines: seq<DiffLine>, moves: seq<string>, moveIndex: seq<int>, f: DiffLine -> bool,
                    m: string, i: int)
    requires Pending(lines, moves, moveIndex, 0, f)
    requires 0 <= i < |lines| && f(lines[i]) && lines[i].line == m
    requires forall j :: 0 <= j < |moveIndex| ==> moveIndex[j] < i
    ensures Pending(lines, moves + [m], moveIndex + [i], 0, f)
  {
    var mi := moveIndex + [i];
    forall j, k | 0 <= j < k < |mi| ensures mi[j] < mi[k] {
      if k < |moveIndex| {
        assert mi[j] == moveIndex[j] && mi[k] == moveIndex[k];
      }
    }
  }

  /** One pairing keeps the entry-by-entry relation to `base`. */
  lemma MoveLineEntries(base: seq<DiffLine>, lines: seq<DiffLine>, p: int, q: int)
    requires MovedFrom(base, lines)
    requires 0 <= p < |lines| && IsDeletion(lines[p])
    requires 0 <= q < |lines| && IsOpenInsertion(lines[q])
    requires lines[p].line == lines[q].line
    ensures var l := MoveLine(lines, p, q);
      forall k :: 0 <= k < |l| ==> MovedEntry(base[k], l[k], l)
  {
    var l := MoveLine(lines, p, q);
    forall k | 0 <= k < |l| ensures MovedEntry(base[k], l[k], l) {
      assert MovedEntry(base[k], lines[k], lines);
      if k != p && k != q && IsMovedInsertion(l[k]) {
        var t := lines[k].aIndex;
        assert IsMove(lines[t]) && t != q;
      }
    }
  }

  /** One pairing keeps moved insertions pointing at distinct deletions. */
  lemma MoveLineDistinct(base: seq<DiffLine>, lines: seq<DiffLine>, p: int, q: int)
    requires MovedFrom(base, lines)
    requires 0 <= p < |lines| && IsDeletion(lines[p])
    requires 0 <= q < |lines| && IsOpenInsertion(lines[q])
    ensures var l := MoveLine(lines, p, q);
      forall j, k :: (0 <= j < |l| && 0 <= k < |l| && j != k
        && IsMovedInsertion(l[j]) && IsMovedInsertion(l[k])) ==> l[j].aIndex != l[k].aIndex
  {
    var l := MoveLine(lines, p, q);
    forall j, k | 0 <= j < |l| && 0 <= k < |l| && j != k && IsMovedInsertion(l[j]) && IsMovedInsertion(l[k])
      ensures l[j].aIndex != l[k].aIndex
    {
      if j == q {
        assert MovedEntry(base[k], lines[k], lines);
      } else if k == q {
        assert MovedEntry(base[j], lines[j], lines);
      }
    }
  }

  /** One pairing moves one deletion and one insertion to the moves. */
  lemma MoveLineCounts(lines: seq<DiffLine>, deleted: int, inserted: int, moved: int, p: int, q: int)
    requires Counted(lines, deleted, inserted, moved)
    requires 0 <= p < |lines| && IsDeletion(lines[p])
    requires 0 <= q < |lines| && IsOpenInsertion(lines[q])
    ensures Counted(MoveLine(lines, p, q), deleted - 1, inserted - 1, moved + 1)
  {
    var l1 := lines[p := lines[p].(moved := true)];
    var e := lines[q].(aIndex := p, moved := true);
    assert l1[q] == lines[q];
    PositionsUpdate(lines, p, lines[p].(moved := true), IsDeletion);
    PositionsUpdate(lines, p, lines[p].(moved := true), IsInsertion);
    PositionsUpdate(lines, p, lines[p].(moved := true), IsMove);
    PositionsUpdate(lines, p, lines[p].(moved := true), IsMovedInsertion);
    PositionsUpdate(l1, q, e, IsDeletion);
    PositionsUpdate(l1, q, e, IsInsertion);
    PositionsUpdate(l1, q, e, IsMove);
    PositionsUpdate(l1, q, e, IsMovedInsertion);
  }

  /** A moved diff shows the same new lines as the diff before the moves. */
  lemma {:induction false} MovedNewSide(base: seq<DiffLine>, lines: seq<DiffLine>)
    requires |lines| == |base|
    requires forall k :: 0 <= k < |lines| ==> lines[k].line == base[k].line && lines[k].bIndex == base[k].bIndex
    ensures NewSide(lines) == NewSide(base)
  {
    if lines != [] {
      var n := |lines| - 1;
      MovedNewSide(base[..n], lines[..n]);
    }
  }

  /** One step of a walk over the old-side indices: from position `c` to `c2` past entry `e`. */
  predicate AStep(e: DiffLine, c: int, c2: int)
  {
    c >= 0 && (e.aIndex >= 0 ==> e.aIndex == c && c2 == c + 1) && (e.aIndex < 0 ==> c2 == c)
  }

  /** One step of a walk over the new-side indices. */
  predicate BStep(e: DiffLine, c: int, c2: int)
  {
    c >= 0 && (e.bIndex >= 0 ==> e.bIndex == c && c2 == c + 1) && (e.bIndex < 0 ==> c2 == c)
  }

  /** The positions a walk over the old-side indices passes through, entry by entry. */
  lemma {:induction false} AWalk(lines: seq<DiffLine>, s: nat) returns (ca: seq<int>)
    requires ANext(lines, s) >= 0
    ensures |ca| == |lines| + 1 && ca[0] == s && ca[|lines|] == ANext(lines, s)
    ensures forall j :: 0 <= j < |lines| ==> AStep(lines[j], ca[j], ca[j + 1])
  {
    if lines == [] {
      ca := [s];
    } else {
      var n := |lines| - 1;
      var init := lines[..n];
      var ci := AWalk(init, s);
      ca := ci + [ANext(lines, s)];
      forall j | 0 <= j < |lines| ensures AStep(lines[j], ca[j], ca[j + 1]) {
        if j < n {
          assert lines[j] == init[j] && ca[j] == ci[j] && ca[j + 1] == ci[j + 1];
        }
      }
    }
  }

  /** The positions a walk over the new-side indices passes through, entry by entry. */
  lemma {:induction false} BWalk(lines: seq<DiffLine>, s: nat) returns (cb: seq<int>)
    requires BNext(lines, s) >= 0
    ensures |cb| == |lines| + 1 && cb[0] == s && cb[|lines|] == BNext(lines, s)
    ensures forall j :: 0 <= j < |lines| ==> BStep(lines[j], cb[j], cb[j + 1])
  {
    if lines == [] {
      cb := [s];
    } else {
      var n := |lines| - 1;
      var init := lines[..n];
      var ci := BWalk(init, s);
      cb := ci + [BNext(lines, s)];
      forall j | 0 <= j < |lines| ensures BStep(lines[j], cb[j], cb[j + 1]) {
        if j < n {
          assert lines[j] == init[j] && cb[j] == ci[j] && cb[j + 1] == ci[j + 1];
        }
      }
    }
  }

  /**
   * The state of one round of the move pass after the sub-diff has walked
   * `aMove` up to `cA` and `bMove` up to `cB`: the diff is `base` with moves
   * paired; the lines not walked yet are still unpaired; the unpaired lines
   * walked so far are in the `next` lists, before the ones not walked yet.
   */
  ghost predicate Round(base: seq<DiffLine>, lines: seq<DiffLine>, deleted: int, inserted: int, moved: int,
                        aMove: seq<string>, aMoveIndex: seq<int>, cA: nat,
                        bMove: seq<string>, bMoveIndex: seq<int>, cB: nat,
                        aMoveNext: seq<string>, aMoveIndexNext: seq<int>,
                        bMoveNext: seq<string>, bMoveIndexNext: seq<int>)
  {
    MovedFrom(base, lines) && Counted(lines, deleted, inserted, moved)
    && Pending(lines, aMove, aMoveIndex, cA, IsDeletion)
    && Pending(lines, bMove, bMoveIndex, cB, IsOpenInsertion)
    && Pending(lines, aMoveNext, aMoveIndexNext, 0, IsDeletion)
    && Pending(lines, bMoveNext, bMoveIndexNext, 0, IsOpenInsertion)
    && Below(aMoveIndexNext, aMoveIndex, cA) && Below(bMoveIndexNext, bMoveIndex, cB)
  }

  /** A round starts with all listed lines unpaired and nothing walked. */
  lemma RoundStart(base: seq<DiffLine>, lines: seq<DiffLine>, deleted: int, inserted: int, moved: int,
                   aMove: seq<string>, aMoveIndex: seq<int>, bMove: seq<string>, bMoveIndex: seq<int>,
                   aMoveNext: seq<string>, aMoveIndexNext: seq<int>,
                   bMoveNext: seq<string>, bMoveIndexNext: seq<int>)
    requires MovedFrom(base, lines) && Counted(lines, deleted, inserted, moved)
    requires Pending(lines, aMove, aMoveIndex, 0, IsDeletion)
    requires Pending(lines, bMove, bMoveIndex, 0, IsOpenInsertion)
    requires aMoveNext == [] && aMoveIndexNext == [] && bMoveNext == [] && bMoveIndexNext == []
    ensures Round(base, lines, deleted, inserted, moved, aMove, aMoveIndex, 0, bMove, bMoveIndex, 0,
                  aMoveNext, aMoveIndexNext, bMoveNext, bMoveIndexNext)
  {
  }

  /** At the end of a round the diff is still `base` with moves paired, and the next lists are move lists. */
  lemma RoundEnd(base: seq<DiffLine>, lines: seq<DiffLine>, deleted: int, inserted: int, moved: int,
                 aMove: seq<string>, aMoveIndex: seq<int>, cA: nat,
                 bMove: seq<string>, bMoveIndex: seq<int>, cB: nat,
                 aMoveNext: seq<string>, aMoveIndexNext: seq<int>,
                 bMoveNext: seq<string>, bMoveIndexNext: seq<int>)
    requires Round(base, lines, deleted, inserted, moved, aMove, aMoveIndex, cA, bMove, bMoveIndex, cB,
                   aMoveNext, aMoveIndexNext, bMoveNext, bMoveIndexNext)
    ensures MovedFrom(base, lines) && Counted(lines, deleted, inserted, moved)
    ensures Pending(lines, aMoveNext, aMoveIndexNext, 0, IsDeletion)
    ensures Pending(lines, bMoveNext, bMoveIndexNext, 0, IsOpenInsertion)
  {
  }

  /** A kept entry of the sub-diff pairs the next deletion with the next insertion. */
  lemma RoundPair(base: seq<DiffLine>, lines: seq<DiffLine>, deleted: int, inserted: int, moved: int,
                  aMove: seq<string>, aMoveIndex: seq<int>, cA: nat,
                  bMove: seq<string>, bMoveIndex: seq<int>, cB: nat,
                  aMoveNext: seq<string>, aMoveIndexNext: seq<int>,
                  bMoveNext: seq<string>, bMoveIndexNext: seq<int>)
    requires Round(base, lines, deleted, inserted, moved, aMove, aMoveIndex, cA, bMove, bMoveIndex, cB,
                   aMoveNext, aMoveIndexNext, bMoveNext, bMoveIndexNext)
    requires cA < |aMove| && cB < |bMove| && aMove[cA] == bMove[cB]
    ensures 0 <= aMoveIndex[cA] < |lines| && 0 <= bMoveIndex[cB] < |lines|
    ensures Round(base, MoveLine(lines, aMoveIndex[cA], bMoveIndex[cB]), deleted - 1, inserted - 1, moved + 1,
                  aMove, aMoveIndex, cA + 1, bMove, bMoveIndex, cB + 1,
                  aMoveNext, aMoveIndexNext, bMoveNext, bMoveIndexNext)
  {
    var p, q := aMoveIndex[cA], bMoveIndex[cB];
    var l := MoveLine(lines, p, q);
    MoveLineEntries(base, lines, p, q);
    MoveLineDistinct(base, lines, p, q);
    MoveLineCounts(lines, deleted, inserted, moved, p, q);
    PendingAvoid(lines, l, aMove, aMoveIndex, cA, cA + 1, IsDeletion, p, q);
    PendingAvoid(lines, l, bMove, bMoveIndex, cB, cB + 1, IsOpenInsertion, q, p);
    PendingAvoid(lines, l, aMoveNext, aMoveIndexNext, 0, 0, IsDeletion, p, q);
    PendingAvoid(lines, l, bMoveNext, bMoveIndexNext, 0, 0, IsOpenInsertion, q, p);
  }

  /** A deletion of the sub-diff stays unpaired and goes to the next round. */
  lemma RoundDeletion(base: seq<DiffLine>, lines: seq<DiffLine>, deleted: int, inserted: int, moved: int,
                      aMove: seq<string>, aMoveIndex: seq<int>, cA: nat,
                      bMove: seq<string>, bMoveIndex: seq<int>, cB: nat,
                      aMoveNext: seq<string>, aMoveIndexNext: seq<int>,
                      bMoveNext: seq<string>, bMoveIndexNext: seq<int>)
    requires Round(base, lines, deleted, inserted, moved, aMove, aMoveIndex, cA, bMove, bMoveIndex, cB,
                   aMoveNext, aMoveIndexNext, bMoveNext, bMoveIndexNext)
    requires cA < |aMove|
    ensures Round(base, lines, deleted, inserted, moved,
                  aMove, aMoveIndex, cA + 1, bMove, bMoveIndex, cB,
                  aMoveNext + [aMove[cA]], aMoveIndexNext + [aMoveIndex[cA]], bMoveNext, bMoveIndexNext)
  {
    PendingPush(lines, aMoveNext, aMoveIndexNext, IsDeletion, aMove[cA], aMoveIndex[cA]);
  }

  /** An insertion of the sub-diff stays unpaired and goes to the next round. */
  lemma RoundInsertion(base: seq<DiffLine>, lines: seq<DiffLine>, deleted: int, inserted: int, moved: int,
                       aMove: seq<string>, aMoveIndex: seq<int>, cA: nat,
                       bMove: seq<string>, bMoveIndex: seq<int>, cB: nat,
                       aMoveNext: seq<string>, aMoveIndexNext: seq<int>,
                       bMoveNext: seq<string>, bMoveIndexNext: seq<int>)
    requires Round(base, lines, deleted, inserted, moved, aMove, aMoveIndex, cA, bMove, bMoveIndex, cB,
                   aMoveNext, aMoveIndexNext, bMoveNext, bMoveIndexNext)
    requires cB < |bMove|
    ensures Round(base, lines, deleted, inserted, moved,
                  aMove, aMoveIndex, cA, bMove, bMoveIndex, cB + 1,
                  aMoveNext, aMoveIndexNext, bMoveNext + [bMove[cB]], bMoveIndexNext + [bMoveIndex[cB]])
  {
    PendingPush(lines, bMoveNext, bMoveIndexNext, IsOpenInsertion, bMove[cB], bMoveIndex[cB]);
  }
}
