/**
 * The anchoring half of `patienceDiff`: the lines occurring exactly once in
 * a range (`findUnique`), those common to two ranges (`uniqueCommon`), and
 * the longest chain of them increasing on both sides, found by patience
 * sorting (`longestCommonSubsequence`).
 */
module DiffAnchors {
  import opened Wrappers
  import opened LineMaps

  /**
   * A unique common line: its index on each side and, once the piles are
   * built, the node it links back to.  Nodes are numbered in the order the
   * piles receive them, so `prev` is such a number instead of a reference.
   */
  datatype Subsequence = Subsequence(aIndex: int, bIndex: int, prev: Option<nat>)

  /** Per-line tally of `findUnique`: how often a line occurred and where last. */
  datatype Tally = Tally(count: nat, index: int)

  /** How many times `line` occurs in `lines[start..end]`, both ends inclusive. */
  ghost function Occurrences(lines: seq<string>, start: int, end: int, line: string): nat
    requires 0 <= start <= end + 1 <= |lines|
  {
    multiset(lines[start..end + 1])[line]
  }

  /**
   * `findUnique`: the lines occurring exactly once in `lines[start..end]`,
   * each mapped to its index, keyed in order of occurrence.
   */
  method FindUnique(lines: seq<string>, start: int, end: int) returns (unique: LineMap<int>)
    requires 0 <= start <= end + 1 <= |lines|
    ensures unique.Valid()
    ensures forall k :: unique.Has(k) <==> Occurrences(lines, start, end, k) == 1
    ensures forall p :: 0 <= p < |unique.keys| ==>
      start <= unique.vals[p] <= end && lines[unique.vals[p]] == unique.keys[p]
    ensures forall p, q :: 0 <= p < q < |unique.keys| ==> unique.vals[p] < unique.vals[q]
  {
    var lineMap, firsts := TallyLines(lines, start, end);
    unique := LineMap([], []);
    for p := 0 to |lineMap.keys|
      invariant Singled(lineMap, firsts, p, unique)
    {
      var key := lineMap.keys[p];
      var value := lineMap.vals[p];
      if value.count == 1 {
        SingledAdd(lineMap, firsts, p, unique);
        unique := unique.Set(key, value.index);
      } else {
        SingledSkip(lineMap, firsts, p, unique);
      }
    }
    SinglesAreUnique(lines, start, end, lineMap, firsts, unique);
  }

  /** The counting loop of `findUnique`; `firsts` records where each key first occurred. */
  method TallyLines(lines: seq<string>, start: int, end: int)
    returns (lineMap: LineMap<Tally>, ghost firsts: seq<int>)
    requires 0 <= start <= end + 1 <= |lines|
    ensures Tallied(lines, start, end + 1, lineMap, firsts)
  {
    lineMap := LineMap([], []);
    firsts := [];
    for i := start to end + 1
      invariant Tallied(lines, start, i, lineMap, firsts)
    {
      var line := lines[i];
      if lineMap.Has(line) {
        var tally := lineMap.Get(line);
        TalliedBump(lines, start, i + 1, lineMap, firsts);
        lineMap := lineMap.Set(line, Tally(tally.count + 1, i));
      } else {
        TalliedAdd(lines, start, i + 1, lineMap, firsts);
        lineMap := lineMap.Set(line, Tally(1, i));
        firsts := firsts + [i];
      }
    }
  }

  /** Passing over a key counted more than once keeps `Singled`. */
  lemma SingledSkip(lineMap: LineMap<Tally>, firsts: seq<int>, p: int, unique: LineMap<int>)
    requires Singled(lineMap, firsts, p, unique) && p < |lineMap.keys|
    requires lineMap.vals[p].count != 1
    ensures Singled(lineMap, firsts, p + 1, unique)
  {
  }

  /** After both loops of `findUnique`, what was kept are the lines occurring once. */
  lemma SinglesAreUnique(lines: seq<string>, start: int, end: int,
                         lineMap: LineMap<Tally>, firsts: seq<int>, unique: LineMap<int>)
    requires 0 <= start <= end + 1 <= |lines|
    requires Tallied(lines, start, end + 1, lineMap, firsts)
    requires Singled(lineMap, firsts, |lineMap.keys|, unique)
    ensures forall k :: unique.Has(k) <==> Occurrences(lines, start, end, k) == 1
    ensures forall p :: 0 <= p < |unique.keys| ==>
      start <= unique.vals[p] <= end && lines[unique.vals[p]] == unique.keys[p]
  {
    forall k | Occurrences(lines, start, end, k) == 1
      ensures unique.Has(k)
    {
      assert k in lines[start..end + 1];
    }
  }

  /**
   * What the `reduce` of `findUnique` knows after the first `p` keys: it
   * kept exactly the keys counted once, with their index, which is also
   * where they first occurred.
   */
  ghost predicate Singled(lineMap: LineMap<Tally>, firsts: seq<int>, p: int, unique: LineMap<int>)
  {
    lineMap.Valid() && |firsts| == |lineMap.keys| && 0 <= p <= |lineMap.keys|
    && (forall p, q :: 0 <= p < q < |firsts| ==> firsts[p] < firsts[q])
    && (forall p :: 0 <= p < |lineMap.keys| && lineMap.vals[p].count == 1 ==>
          firsts[p] == lineMap.vals[p].index)
    && unique.Valid()
    && (forall x :: 0 <= x < |unique.keys| ==>
          0 <= IndexOf(lineMap.keys, unique.keys[x]) < p
          && lineMap.vals[IndexOf(lineMap.keys, unique.keys[x])] == Tally(1, unique.vals[x]))
    && (forall x :: 0 <= x < p && lineMap.vals[x].count == 1 ==> unique.Has(lineMap.keys[x]))
    && (forall x, y :: 0 <= x < |unique.keys| && p <= y < |firsts| ==> unique.vals[x] < firsts[y])
    && (forall x, y :: 0 <= x < y < |unique.keys| ==> unique.vals[x] < unique.vals[y])
  }

  /** Keeping the key at position `p` of the tally keeps `Singled`. */
  lemma SingledAdd(lineMap: LineMap<Tally>, firsts: seq<int>, p: int, unique: LineMap<int>)
    requires Singled(lineMap, firsts, p, unique) && p < |lineMap.keys|
    requires lineMap.vals[p].count == 1
    ensures Singled(lineMap, firsts, p + 1, unique.Set(lineMap.keys[p], lineMap.vals[p].index))
  {
    var key := lineMap.keys[p];
    assert IndexOf(lineMap.keys, key) == p;
    assert !unique.Has(key);
  }

  /**
   * What the counting loop of `findUnique` knows after `lines[start..i]`:
   * every line seen is a key; each key has its count, its last index and,
   * in `firsts`, its first index; the keys are in order of first occurrence.
   */
  ghost predicate Tallied(lines: seq<string>, start: int, i: int,
                          lineMap: LineMap<Tally>, firsts: seq<int>)
    requires 0 <= start <= i <= |lines|
  {
    lineMap.Valid() && |firsts| == |lineMap.keys|
    && (forall p, q :: 0 <= p < q < |firsts| ==> firsts[p] < firsts[q])
    && TallyCovers(lines, start, i, lineMap)
    && TallyCounts(lines, start, i, lineMap)
    && TallyPlaces(lines, start, i, lineMap, firsts)
  }

  /** Every line of `lines[start..i]` is a key. */
  ghost predicate TallyCovers(lines: seq<string>, start: int, i: int, lineMap: LineMap<Tally>)
    requires 0 <= start <= i <= |lines|
  {
    forall j :: start <= j < i ==> lineMap.Has(lines[j])
  }

  /** Each key is counted as often as it occurs in `lines[start..i]`. */
  ghost predicate TallyCounts(lines: seq<string>, start: int, i: int, lineMap: LineMap<Tally>)
    requires 0 <= start <= i <= |lines| && |lineMap.keys| == |lineMap.vals|
  {
    forall p :: 0 <= p < |lineMap.keys| ==>
      lineMap.vals[p].count == multiset(lines[start..i])[lineMap.keys[p]]
  }

  /**
   * Each key knows where in `lines[start..i]` it occurred first and last:
   * the stored index holds the key and no later line does.
   */
  ghost predicate TallyPlaces(lines: seq<string>, start: int, i: int,
                              lineMap: LineMap<Tally>, firsts: seq<int>)
    requires 0 <= start <= i <= |lines| && |lineMap.keys| == |lineMap.vals| == |firsts|
  {
    forall p :: 0 <= p < |lineMap.keys| ==>
      start <= firsts[p] <= lineMap.vals[p].index < i && lineMap.vals[p].count > 0
      && lines[lineMap.vals[p].index] == lineMap.keys[p]
      && (lineMap.vals[p].count == 1 ==> firsts[p] == lineMap.vals[p].index)
      && lineMap.keys[p] !in lines[lineMap.vals[p].index + 1..i]
  }

  /** Counting the line at `i - 1`, seen before, keeps `Tallied`. */
  lemma TalliedBump(lines: seq<string>, start: int, i: int,
                    lineMap: LineMap<Tally>, firsts: seq<int>)
    requires 0 <= start < i <= |lines|
    requires Tallied(lines, start, i - 1, lineMap, firsts)
    requires lineMap.Has(lines[i - 1])
    ensures Tallied(lines, start, i,
                    lineMap.Set(lines[i - 1], Tally(lineMap.Get(lines[i - 1]).count + 1, i - 1)), firsts)
  {
    var line := lines[i - 1];
    var n := lineMap.Set(line, Tally(lineMap.Get(line).count + 1, i - 1));
    var p0 := IndexOf(lineMap.keys, line);
    assert n.keys == lineMap.keys && n.vals == lineMap.vals[p0 := Tally(lineMap.vals[p0].count + 1, i - 1)];
    BumpCounts(lines, start, i, lineMap, p0, n);
    BumpPlaces(lines, start, i, lineMap, firsts, p0, n);
  }

  /** The counts after counting a line seen before, at position `p0` of the tally. */
  lemma BumpCounts(lines: seq<string>, start: int, i: int, lineMap: LineMap<Tally>,
                   p0: int, n: LineMap<Tally>)
    requires 0 <= start < i <= |lines| && lineMap.Valid()
    requires TallyCounts(lines, start, i - 1, lineMap)
    requires 0 <= p0 < |lineMap.keys| && lineMap.keys[p0] == lines[i - 1]
    requires n.keys == lineMap.keys && n.vals == lineMap.vals[p0 := Tally(lineMap.vals[p0].count + 1, i - 1)]
    ensures TallyCounts(lines, start, i, n)
  {
    assert lines[start..i] == lines[start..i - 1] + [lines[i - 1]];
    forall p | 0 <= p < |n.keys|
      ensures n.vals[p].count == multiset(lines[start..i])[n.keys[p]]
    {
      if p != p0 {
        assert n.keys[p] != lines[i - 1];
      }
    }
  }

  /** The places after counting a line seen before, at position `p0` of the tally. */
  lemma BumpPlaces(lines: seq<string>, start: int, i: int, lineMap: LineMap<Tally>,
                   firsts: seq<int>, p0: int, n: LineMap<Tally>)
    requires 0 <= start < i <= |lines| && lineMap.Valid() && |firsts| == |lineMap.keys|
    requires TallyPlaces(lines, start, i - 1, lineMap, firsts)
    requires 0 <= p0 < |lineMap.keys| && lineMap.keys[p0] == lines[i - 1]
    requires n.keys == lineMap.keys && n.vals == lineMap.vals[p0 := Tally(lineMap.vals[p0].count + 1, i - 1)]
    ensures TallyPlaces(lines, start, i, n, firsts)
  {
    forall p | 0 <= p < |n.keys|
      ensures start <= firsts[p] <= n.vals[p].index < i && n.vals[p].count > 0
      ensures lines[n.vals[p].index] == n.keys[p]
      ensures n.vals[p].count == 1 ==> firsts[p] == n.vals[p].index
      ensures n.keys[p] !in lines[n.vals[p].index + 1..i]
    {
      if p != p0 {
        assert n.vals[p] == lineMap.vals[p];
        assert lines[i - 1] == lineMap.keys[p0] != lineMap.keys[p];
        assert lines[n.vals[p].index + 1..i] == lines[n.vals[p].index + 1..i - 1] + [lines[i - 1]];
      } else {
        assert lines[n.vals[p].index + 1..i] == [];
      }
    }
  }

  /** Counting the line at `i - 1`, not seen before, keeps `Tallied`. */
  lemma TalliedAdd(lines: seq<string>, start: int, i: int,
                   lineMap: LineMap<Tally>, firsts: seq<int>)
    requires 0 <= start < i <= |lines|
    requires Tallied(lines, start, i - 1, lineMap, firsts)
    requires !lineMap.Has(lines[i - 1])
    ensures Tallied(lines, start, i, lineMap.Set(lines[i - 1], Tally(1, i - 1)), firsts + [i - 1])
  {
    var line := lines[i - 1];
    var n := lineMap.Set(line, Tally(1, i - 1));
    assert n.keys == lineMap.keys + [line] && n.vals == lineMap.vals + [Tally(1, i - 1)];
    AddCounts(lines, start, i, lineMap, n);
    AddPlaces(lines, start, i, lineMap, firsts, n);
  }

  /** The counts after counting a line not seen before. */
  lemma AddCounts(lines: seq<string>, start: int, i: int, lineMap: LineMap<Tally>, n: LineMap<Tally>)
    requires 0 <= start < i <= |lines| && lineMap.Valid()
    requires TallyCovers(lines, start, i - 1, lineMap)
    requires TallyCounts(lines, start, i - 1, lineMap)
    requires !lineMap.Has(lines[i - 1])
    requires n.keys == lineMap.keys + [lines[i - 1]] && n.vals == lineMap.vals + [Tally(1, i - 1)]
    ensures TallyCounts(lines, start, i, n)
  {
    assert lines[start..i] == lines[start..i - 1] + [lines[i - 1]];
    assert lines[i - 1] !in lines[start..i - 1];
    forall p | 0 <= p < |n.keys|
      ensures n.vals[p].count == multiset(lines[start..i])[n.keys[p]]
    {
      if p < |lineMap.keys| {
        assert n.keys[p] == lineMap.keys[p] != lines[i - 1];
      }
    }
  }

  /** The places after counting a line not seen before. */
  lemma AddPlaces(lines: seq<string>, start: int, i: int, lineMap: LineMap<Tally>,
                  firsts: seq<int>, n: LineMap<Tally>)
    requires 0 <= start < i <= |lines| && lineMap.Valid() && |firsts| == |lineMap.keys|
    requires TallyPlaces(lines, start, i - 1, lineMap, firsts)
    requires !lineMap.Has(lines[i - 1])
    requires n.keys == lineMap.keys + [lines[i - 1]] && n.vals == lineMap.vals + [Tally(1, i - 1)]
    ensures TallyPlaces(lines, start, i, n, firsts + [i - 1])
  {
    forall p | 0 <= p < |lineMap.keys|
      ensures n.keys[p] !in lines[n.vals[p].index + 1..i]
    {
      assert n.keys[p] == lineMap.keys[p] != lines[i - 1];
      assert lines[n.vals[p].index + 1..i] == lines[n.vals[p].index + 1..i - 1] + [lines[i - 1]];
    }
    assert lines[i..i] == [];
  }

  /** The anchor `s` lies in the ranges and pairs equal lines. */
  ghost predicate Anchors(aLines: seq<string>, aStart: int, aEnd: int,
                          bLines: seq<string>, bStart: int, bEnd: int, s: Subsequence)
  {
    0 <= aStart <= s.aIndex <= aEnd < |aLines| && 0 <= bStart <= s.bIndex <= bEnd < |bLines|
    && aLines[s.aIndex] == bLines[s.bIndex]
  }

  /** The values of `m` are anchors of the ranges, keyed by their line, in increasing `aIndex`. */
  ghost predicate AnchorMap(aLines: seq<string>, aStart: int, aEnd: int,
                            bLines: seq<string>, bStart: int, bEnd: int, m: LineMap<Subsequence>)
  {
    m.Valid()
    && (forall p :: 0 <= p < |m.keys| ==>
          Anchors(aLines, aStart, aEnd, bLines, bStart, bEnd, m.vals[p])
          && aLines[m.vals[p].aIndex] == m.keys[p] && m.vals[p].prev == None)
    && (forall p, q :: 0 <= p < q < |m.keys| ==> m.vals[p].aIndex < m.vals[q].aIndex)
  }

  /**
   * `uniqueCommon`: the lines occurring exactly once in each range, keyed in
   * the order of the first range, with their index on each side.
   */
  method UniqueCommon(aLines: seq<string>, aStart: int, aEnd: int,
                      bLines: seq<string>, bStart: int, bEnd: int)
    returns (paired: LineMap<Subsequence>)
    requires 0 <= aStart <= aEnd + 1 <= |aLines|
    requires 0 <= bStart <= bEnd + 1 <= |bLines|
    ensures AnchorMap(aLines, aStart, aEnd, bLines, bStart, bEnd, paired)
    ensures forall k :: paired.Has(k) <==>
      Occurrences(aLines, aStart, aEnd, k) == 1 && Occurrences(bLines, bStart, bEnd, k) == 1
  {
    var aUnique := FindUnique(aLines, aStart, aEnd);
    var bUnique := FindUnique(bLines, bStart, bEnd);
    paired := LineMap([], []);
    for p := 0 to |aUnique.keys|
      invariant Paired(aUnique, bUnique, p, paired)
    {
      var key := aUnique.keys[p];
      var value := aUnique.vals[p];
      if bUnique.Has(key) {
        PairedAdd(aUnique, bUnique, p, paired);
        paired := paired.Set(key, Subsequence(value, bUnique.Get(key), None));
      } else {
        PairedSkip(aUnique, bUnique, p, paired);
      }
    }
    PairedAreCommon(aLines, aStart, aEnd, bLines, bStart, bEnd, aUnique, bUnique, paired);
  }

  /**
   * What the `reduce` of `uniqueCommon` knows after the first `p` keys of
   * `aUnique`: it paired exactly the keys `bUnique` also has, in order.
   */
  ghost predicate Paired(aUnique: LineMap<int>, bUnique: LineMap<int>, p: int,
                         paired: LineMap<Subsequence>)
  {
    aUnique.Valid() && bUnique.Valid() && 0 <= p <= |aUnique.keys|
    && (forall x, y :: 0 <= x < y < |aUnique.keys| ==> aUnique.vals[x] < aUnique.vals[y])
    && paired.Valid()
    && (forall x :: 0 <= x < |paired.keys| ==>
          0 <= IndexOf(aUnique.keys, paired.keys[x]) < p
          && bUnique.Has(paired.keys[x])
          && paired.vals[x] == Subsequence(aUnique.vals[IndexOf(aUnique.keys, paired.keys[x])],
                                           bUnique.Get(paired.keys[x]), None))
    && (forall x :: 0 <= x < p && bUnique.Has(aUnique.keys[x]) ==> paired.Has(aUnique.keys[x]))
    && (forall x, y :: 0 <= x < |paired.keys| && p <= y < |aUnique.keys| ==>
          paired.vals[x].aIndex < aUnique.vals[y])
    && (forall x, y :: 0 <= x < y < |paired.keys| ==> paired.vals[x].aIndex < paired.vals[y].aIndex)
  }

  /** Pairing the key at position `p` keeps `Paired`. */
  lemma PairedAdd(aUnique: LineMap<int>, bUnique: LineMap<int>, p: int, paired: LineMap<Subsequence>)
    requires Paired(aUnique, bUnique, p, paired) && p < |aUnique.keys|
    requires bUnique.Has(aUnique.keys[p])
    ensures Paired(aUnique, bUnique, p + 1,
                   paired.Set(aUnique.keys[p],
                              Subsequence(aUnique.vals[p], bUnique.Get(aUnique.keys[p]), None)))
  {
    var key := aUnique.keys[p];
    var value := Subsequence(aUnique.vals[p], bUnique.Get(key), None);
    assert IndexOf(aUnique.keys, key) == p;
    assert !paired.Has(key);
    var paired' := paired.Set(key, value);
    assert paired'.keys == paired.keys + [key] && paired'.vals == paired.vals + [value];
    forall x, y | 0 <= x < |paired'.keys| && p + 1 <= y < |aUnique.keys|
      ensures paired'.vals[x].aIndex < aUnique.vals[y]
    {
      if x < |paired.keys| {
        assert paired'.vals[x] == paired.vals[x];
      }
    }
  }

  /** Passing over a key `bUnique` lacks keeps `Paired`. */
  lemma PairedSkip(aUnique: LineMap<int>, bUnique: LineMap<int>, p: int, paired: LineMap<Subsequence>)
    requires Paired(aUnique, bUnique, p, paired) && p < |aUnique.keys|
    requires !bUnique.Has(aUnique.keys[p])
    ensures Paired(aUnique, bUnique, p + 1, paired)
  {
  }

  /** After the loop of `uniqueCommon`, the pairs are the anchors common to both ranges. */
  lemma PairedAreCommon(aLines: seq<string>, aStart: int, aEnd: int,
                        bLines: seq<string>, bStart: int, bEnd: int,
                        aUnique: LineMap<int>, bUnique: LineMap<int>, paired: LineMap<Subsequence>)
    requires 0 <= aStart <= aEnd + 1 <= |aLines|
    requires 0 <= bStart <= bEnd + 1 <= |bLines|
    requires aUnique.Valid() && bUnique.Valid()
    requires forall k :: aUnique.Has(k) <==> Occurrences(aLines, aStart, aEnd, k) == 1
    requires forall p :: 0 <= p < |aUnique.keys| ==>
      aStart <= aUnique.vals[p] <= aEnd && aLines[aUnique.vals[p]] == aUnique.keys[p]
    requires forall k :: bUnique.Has(k) <==> Occurrences(bLines, bStart, bEnd, k) == 1
    requires forall p :: 0 <= p < |bUnique.keys| ==>
      bStart <= bUnique.vals[p] <= bEnd && bLines[bUnique.vals[p]] == bUnique.keys[p]
    requires Paired(aUnique, bUnique, |aUnique.keys|, paired)
    ensures AnchorMap(aLines, aStart, aEnd, bLines, bStart, bEnd, paired)
    ensures forall k :: paired.Has(k) <==>
      Occurrences(aLines, aStart, aEnd, k) == 1 && Occurrences(bLines, bStart, bEnd, k) == 1
  {
    forall k | aUnique.Has(k) && bUnique.Has(k)
      ensures paired.Has(k)
    {
      assert aUnique.keys[IndexOf(aUnique.keys, k)] == k;
    }
  }

  /** The pile structure of `longestCommonSubsequence`: non-empty piles of node numbers below `n`. */
  ghost predicate Piles(jagged: seq<seq<nat>>, n: nat)
  {
    forall i :: 0 <= i < |jagged| ==>
      |jagged[i]| > 0 && forall q :: 0 <= q < |jagged[i]| ==> jagged[i][q] < n
  }

  /** Node `k` links back, if at all, to an earlier node with smaller indices on both sides. */
  ghost predicate Linked(nodes: seq<Subsequence>, k: int)
    requires 0 <= k < |nodes|
  {
    nodes[k].prev.Some? ==>
      nodes[k].prev.value < k
      && nodes[nodes[k].prev.value].aIndex < nodes[k].aIndex
      && nodes[nodes[k].prev.value].bIndex < nodes[k].bIndex
  }

  /**
   * `longestCommonSubsequence`: patience sorting of the anchors by `bIndex`
   * into piles, each linked to the top of the pile on its left; the chain
   * back from the top of the last pile, reversed.  `picks[k]` is the
   * position in `abMap` of the anchor `lcs[k]`.
   */
  method LongestCommonSubsequence(abMap: LineMap<Subsequence>)
    returns (lcs: seq<Subsequence>, ghost picks: seq<nat>)
    requires abMap.Valid()
    requires forall p, q :: 0 <= p < q < |abMap.keys| ==> abMap.vals[p].aIndex < abMap.vals[q].aIndex
    requires forall p :: 0 <= p < |abMap.vals| ==> abMap.vals[p].prev == None
    ensures |lcs| == 0 <==> abMap.Size() == 0
    ensures |picks| == |lcs|
    ensures forall k :: 0 <= k < |lcs| ==>
      picks[k] < |abMap.vals|
      && lcs[k].aIndex == abMap.vals[picks[k]].aIndex && lcs[k].bIndex == abMap.vals[picks[k]].bIndex
    ensures forall k :: 0 < k < |lcs| ==>
      lcs[k - 1].aIndex < lcs[k].aIndex && lcs[k - 1].bIndex < lcs[k].bIndex
  {
    var jagged, nodes := DealPiles(abMap);
    lcs := [];
    picks := [];
    if |jagged| > 0 {
      var size := |jagged| - 1;
      var top := jagged[size][|jagged[size]| - 1];
      lcs := [nodes[top]];
      // `chain[k]` is the node number of `lcs[k]`
      ghost var chain: seq<nat> := [top];
      while lcs[|lcs| - 1].prev.Some?
        invariant Chain(nodes, lcs, chain)
        invariant forall k :: 0 <= k < |nodes| ==> Linked(nodes, k)
        decreases chain[|chain| - 1]
      {
        var link := lcs[|lcs| - 1].prev.value;
        ChainStep(nodes, lcs, chain);
        lcs := lcs + [nodes[link]];
        chain := chain + [link];
      }
      ChainReversed(abMap, nodes, lcs, chain);
      lcs := Reversed(lcs);
      picks := Reversed(chain);
    }
  }

  /**
   * `lcs` follows the links back from a node: `chain[k]` is the node number
   * of `lcs[k]`, and both indices fall along the way.
   */
  ghost predicate Chain(nodes: seq<Subsequence>, lcs: seq<Subsequence>, chain: seq<nat>)
  {
    |chain| == |lcs| > 0
    && (forall k :: 0 <= k < |lcs| ==> chain[k] < |nodes| && lcs[k] == nodes[chain[k]])
    && (forall k :: 0 < k < |lcs| ==>
          lcs[k].aIndex < lcs[k - 1].aIndex && lcs[k].bIndex < lcs[k - 1].bIndex)
  }

  /** Following one more link extends the chain. */
  lemma ChainStep(nodes: seq<Subsequence>, lcs: seq<Subsequence>, chain: seq<nat>)
    requires Chain(nodes, lcs, chain) && Linked(nodes, chain[|chain| - 1])
    requires lcs[|lcs| - 1].prev.Some?
    ensures lcs[|lcs| - 1].prev.value < chain[|chain| - 1]
    ensures Chain(nodes, lcs + [nodes[lcs[|lcs| - 1].prev.value]],
                  chain + [lcs[|lcs| - 1].prev.value])
  {
  }

  /** Reversed, the chain increases on both sides and picks anchors of `abMap`. */
  lemma ChainReversed(abMap: LineMap<Subsequence>, nodes: seq<Subsequence>,
                      lcs: seq<Subsequence>, chain: seq<nat>)
    requires Chain(nodes, lcs, chain) && |nodes| == |abMap.vals|
    requires forall k :: 0 <= k < |nodes| ==>
      nodes[k].aIndex == abMap.vals[k].aIndex && nodes[k].bIndex == abMap.vals[k].bIndex
    ensures var r, picks := Reversed(lcs), Reversed(chain);
      |r| == |picks| == |lcs|
      && (forall k :: 0 <= k < |r| ==>
            picks[k] < |abMap.vals|
            && r[k].aIndex == abMap.vals[picks[k]].aIndex
            && r[k].bIndex == abMap.vals[picks[k]].bIndex)
      && (forall k :: 0 < k < |r| ==> r[k - 1].aIndex < r[k].aIndex && r[k - 1].bIndex < r[k].bIndex)
  {
    var r := Reversed(lcs);
    forall k | 0 < k < |r|
      ensures r[k - 1].aIndex < r[k].aIndex && r[k - 1].bIndex < r[k].bIndex
    {
      assert r[k - 1] == lcs[|lcs| - k] && r[k] == lcs[|lcs| - k - 1];
    }
  }

  /**
   * The `forEach` of `longestCommonSubsequence`: each anchor goes on the
   * first pile whose top has a `bIndex` at least its own, or on a new pile,
   * and links to the top of the pile on the left.
   */
  method DealPiles(abMap: LineMap<Subsequence>) returns (jagged: seq<seq<nat>>, nodes: seq<Subsequence>)
    requires abMap.Valid()
    requires forall p, q :: 0 <= p < q < |abMap.keys| ==> abMap.vals[p].aIndex < abMap.vals[q].aIndex
    requires forall p :: 0 <= p < |abMap.vals| ==> abMap.vals[p].prev == None
    ensures |nodes| == |abMap.keys|
    ensures Piles(jagged, |nodes|) && (|nodes| > 0 <==> |jagged| > 0)
    ensures forall k :: 0 <= k < |nodes| ==>
      nodes[k].aIndex == abMap.vals[k].aIndex && nodes[k].bIndex == abMap.vals[k].bIndex
      && Linked(nodes, k)
  {
    jagged := [];
    nodes := [];
    for n := 0 to |abMap.keys|
      invariant |nodes| == n
      invariant Piles(jagged, n) && (n > 0 <==> |jagged| > 0)
      invariant forall k :: 0 <= k < n ==>
        nodes[k].aIndex == abMap.vals[k].aIndex && nodes[k].bIndex == abMap.vals[k].bIndex
        && Linked(nodes, k)
    {
      var value := abMap.vals[n];
      var i := 0;
      while i < |jagged| && nodes[jagged[i][|jagged[i]| - 1]].bIndex < value.bIndex
        invariant 0 <= i <= |jagged|
        invariant i > 0 ==> nodes[jagged[i - 1][|jagged[i - 1]| - 1]].bIndex < value.bIndex
      {
        i := i + 1;
      }
      if i == |jagged| {
        jagged := jagged + [[]];
      }
      if i > 0 {
        value := value.(prev := Some(jagged[i - 1][|jagged[i - 1]| - 1]));
      }
      jagged := jagged[i := jagged[i] + [n]];
      nodes := nodes + [value];
      assert Linked(nodes, n);
    }
  }

  /** `array.reverse()`. */
  function Reversed<T>(s: seq<T>): (r: seq<T>)
    ensures |r| == |s|
    ensures forall k :: 0 <= k < |s| ==> r[k] == s[|s| - 1 - k]
  {
    if s == [] then [] else Reversed(s[1..]) + [s[0]]
  }
}
