/**
 * Minimum-edit-distance alignment of two sequences (src/edits.ts): a
 * Levenshtein table, then a backtrack from the last cell that prefers, in
 * order, an equal pair, a diagonal substitution, a deletion and an insertion.
 */
module Edits {
  import opened Wrappers

  datatype ChangeType = Keep | Change

  /** One step of the alignment: `[source, target, kind]`, `None` standing for `null`. */
  datatype ChangedItem<A> = ChangedItem(source: Option<A>, target: Option<A>, kind: ChangeType)

  /** The default comparison of `changedItems`: `a === b`. */
  function StrictEquals<A(==)>(x: A, y: A): bool
  {
    x == y
  }

  function Min3(x: nat, y: nat, z: nat): nat
  {
    if x <= y && x <= z then x else if y <= z then y else z
  }

  /**
   * The table entry `d[i][j]`: the edit distance between the first `i`
   * items of `a` and the first `j` items of `b`, with `eq` deciding equality.
   */
  function Distance<A>(a: seq<A>, b: seq<A>, eq: (A, A) -> bool, i: nat, j: nat): nat
    requires i <= |a| && j <= |b|
    decreases i + j
  {
    if i == 0 then j
    else if j == 0 then i
    else if eq(a[i - 1], b[j - 1]) then Distance(a, b, eq, i - 1, j - 1)
    else Min3(Distance(a, b, eq, i - 1, j), Distance(a, b, eq, i, j - 1), Distance(a, b, eq, i - 1, j - 1)) + 1
  }

  /**
   * In every cell other than (0, 0) one of the four backtrack branches
   * applies: when neither an equal pair, a substitution nor a deletion
   * explains `d[i][j]`, an insertion does.
   */
  lemma BacktrackProgress<A>(a: seq<A>, b: seq<A>, eq: (A, A) -> bool, i: nat, j: nat)
    requires i <= |a| && j <= |b| && (i > 0 || j > 0)
    requires !(i > 0 && j > 0 && eq(a[i - 1], b[j - 1]))
    requires !(i > 0 && j > 0 && Distance(a, b, eq, i, j) == Distance(a, b, eq, i - 1, j - 1) + 1)
    requires !(i > 0 && Distance(a, b, eq, i, j) == Distance(a, b, eq, i - 1, j) + 1)
    ensures j > 0 && Distance(a, b, eq, i, j) == Distance(a, b, eq, i, j - 1) + 1
  {
  }

  /**
   * The backtrack of `changedItems` from cell (i, j), as a function: the
   * alignment of `a[..i]` with `b[..j]`, built from its last step.
   */
  function Alignment<A>(a: seq<A>, b: seq<A>, eq: (A, A) -> bool, i: nat, j: nat): seq<ChangedItem<A>>
    requires i <= |a| && j <= |b|
    decreases i + j
  {
    if i == 0 && j == 0 then []
    else if i > 0 && j > 0 && eq(a[i - 1], b[j - 1]) then
      Alignment(a, b, eq, i - 1, j - 1) + [ChangedItem(Some(a[i - 1]), Some(b[j - 1]), Keep)]
    else if i > 0 && j > 0 && Distance(a, b, eq, i, j) == Distance(a, b, eq, i - 1, j - 1) + 1 then
      Alignment(a, b, eq, i - 1, j - 1) + [ChangedItem(Some(a[i - 1]), Some(b[j - 1]), Change)]
    else if i > 0 && Distance(a, b, eq, i, j) == Distance(a, b, eq, i - 1, j) + 1 then
      Alignment(a, b, eq, i - 1, j) + [ChangedItem(Some(a[i - 1]), None, Change)]
    else
      BacktrackProgress(a, b, eq, i, j);
      Alignment(a, b, eq, i, j - 1) + [ChangedItem(None, Some(b[j - 1]), Change)]
  }

  /** The insertion step of the backtrack, when no earlier branch applies. */
  lemma AlignmentInsertStep<A>(a: seq<A>, b: seq<A>, eq: (A, A) -> bool, i: nat, j: nat)
    requires i <= |a| && 0 < j <= |b|
    requires !(i > 0 && eq(a[i - 1], b[j - 1]))
    requires !(i > 0 && Distance(a, b, eq, i, j) == Distance(a, b, eq, i - 1, j - 1) + 1)
    requires !(i > 0 && Distance(a, b, eq, i, j) == Distance(a, b, eq, i - 1, j) + 1)
    ensures Alignment(a, b, eq, i, j) == Alignment(a, b, eq, i, j - 1) + [ChangedItem(None, Some(b[j - 1]), Change)]
  {
  }

  /** The equal-pair and substitution steps of the backtrack. */
  lemma AlignmentDiagonalStep<A>(a: seq<A>, b: seq<A>, eq: (A, A) -> bool, i: nat, j: nat)
    requires 0 < i <= |a| && 0 < j <= |b|
    requires eq(a[i - 1], b[j - 1]) || Distance(a, b, eq, i, j) == Distance(a, b, eq, i - 1, j - 1) + 1
    ensures Alignment(a, b, eq, i, j) == Alignment(a, b, eq, i - 1, j - 1) +
      [ChangedItem(Some(a[i - 1]), Some(b[j - 1]), if eq(a[i - 1], b[j - 1]) then Keep else Change)]
  {
  }

  /** The deletion step of the backtrack, when neither diagonal step applies. */
  lemma AlignmentDeleteStep<A>(a: seq<A>, b: seq<A>, eq: (A, A) -> bool, i: nat, j: nat)
    requires 0 < i <= |a| && j <= |b|
    requires !(j > 0 && eq(a[i - 1], b[j - 1]))
    requires !(j > 0 && Distance(a, b, eq, i, j) == Distance(a, b, eq, i - 1, j - 1) + 1)
    requires Distance(a, b, eq, i, j) == Distance(a, b, eq, i - 1, j) + 1
    ensures Alignment(a, b, eq, i, j) == Alignment(a, b, eq, i - 1, j) + [ChangedItem(Some(a[i - 1]), None, Change)]
  {
  }

  lemma AppendAssociative<T>(x: seq<T>, y: seq<T>, z: seq<T>)
    ensures (x + y) + z == x + (y + z)
  {
  }

  /** The `source` items of an alignment, `null`s dropped, in order. */
  function Sources<A>(cs: seq<ChangedItem<A>>): seq<A>
  {
    if cs == [] then []
    else Sources(cs[..|cs| - 1]) + (match cs[|cs| - 1].source case Some(x) => [x] case None => [])
  }

  /** The `target` items of an alignment, `null`s dropped, in order. */
  function Targets<A>(cs: seq<ChangedItem<A>>): seq<A>
  {
    if cs == [] then []
    else Targets(cs[..|cs| - 1]) + (match cs[|cs| - 1].target case Some(x) => [x] case None => [])
  }

  /** Number of `Change` steps in an alignment. */
  function ChangeCount<A>(cs: seq<ChangedItem<A>>): nat
  {
    if cs == [] then 0
    else ChangeCount(cs[..|cs| - 1]) + (if cs[|cs| - 1].kind == Change then 1 else 0)
  }

  /**
   * The last step of the backtrack from (i, j): the alignment is the one from
   * (i', j') followed by `item`, which consumes `a[i - 1]` exactly when
   * i' < i and `b[j - 1]` exactly when j' < j.  A `Keep` pairs equal items
   * and leaves the distance unchanged; a `Change` costs one.
   */
  lemma {:induction false} AlignmentStep<A>(a: seq<A>, b: seq<A>, eq: (A, A) -> bool, i: nat, j: nat)
    returns (i': nat, j': nat, item: ChangedItem<A>)
    requires i <= |a| && j <= |b| && (i > 0 || j > 0)
    ensures i' <= i && j' <= j && i - 1 <= i' && j - 1 <= j' && i' + j' < i + j
    ensures Alignment(a, b, eq, i, j) == Alignment(a, b, eq, i', j') + [item]
    ensures item.source == (if i' < i then Some(a[i - 1]) else None)
    ensures item.target == (if j' < j then Some(b[j - 1]) else None)
    ensures item.kind == Keep ==> i' < i && j' < j && eq(a[i - 1], b[j - 1])
    ensures Distance(a, b, eq, i, j) == Distance(a, b, eq, i', j') + (if item.kind == Change then 1 else 0)
  {
    if i > 0 && j > 0 && eq(a[i - 1], b[j - 1]) {
      i', j', item := i - 1, j - 1, ChangedItem(Some(a[i - 1]), Some(b[j - 1]), Keep);
    } else if i > 0 && j > 0 && Distance(a, b, eq, i, j) == Distance(a, b, eq, i - 1, j - 1) + 1 {
      i', j', item := i - 1, j - 1, ChangedItem(Some(a[i - 1]), Some(b[j - 1]), Change);
    } else if i > 0 && Distance(a, b, eq, i, j) == Distance(a, b, eq, i - 1, j) + 1 {
      i', j', item := i - 1, j, ChangedItem(Some(a[i - 1]), None, Change);
    } else {
      BacktrackProgress(a, b, eq, i, j);
      AlignmentInsertStep(a, b, eq, i, j);
      i', j', item := i, j - 1, ChangedItem(None, Some(b[j - 1]), Change);
    }
  }

  /** The shape of the last step of the backtrack, without its cost. */
  lemma AlignmentLast<A>(a: seq<A>, b: seq<A>, eq: (A, A) -> bool, i: nat, j: nat)
    returns (i': nat, j': nat, item: ChangedItem<A>)
    requires i <= |a| && j <= |b| && (i > 0 || j > 0)
    ensures i' <= i && j' <= j && i - 1 <= i' && j - 1 <= j' && i' + j' < i + j
    ensures Alignment(a, b, eq, i, j) == Alignment(a, b, eq, i', j') + [item]
    ensures item.source == (if i' < i then Some(a[i - 1]) else None)
    ensures item.target == (if j' < j then Some(b[j - 1]) else None)
  {
    i', j', item := AlignmentStep(a, b, eq, i, j);
  }

  /**
   * Dropping `null`s, the source column of the alignment is `a[..i]` and the
   * target column is `b[..j]`: the alignment gives back both inputs, in order.
   */
  lemma AlignmentProjections<A>(a: seq<A>, b: seq<A>, eq: (A, A) -> bool, i: nat, j: nat)
    requires i <= |a| && j <= |b|
    ensures Sources(Alignment(a, b, eq, i, j)) == a[..i]
    ensures Targets(Alignment(a, b, eq, i, j)) == b[..j]
  {
    AlignmentSources(a, b, eq, i, j);
    AlignmentTargets(a, b, eq, i, j);
  }

  /** The source column of the alignment, dropping `null`s, is `a[..i]`. */
  lemma {:induction false} AlignmentSources<A>(a: seq<A>, b: seq<A>, eq: (A, A) -> bool, i: nat, j: nat)
    requires i <= |a| && j <= |b|
    ensures Sources(Alignment(a, b, eq, i, j)) == a[..i]
    decreases i + j
  {
    if i > 0 || j > 0 {
      var i', j', item := AlignmentLast(a, b, eq, i, j);
      AlignmentSources(a, b, eq, i', j');
      var prefix := Alignment(a, b, eq, i', j');
      var cs := prefix + [item];
      assert cs[..|cs| - 1] == prefix;
      if i' < i {
        assert Sources(cs) == Sources(prefix) + [a[i - 1]];
        assert a[..i] == a[..i'] + [a[i - 1]];
      } else {
        assert Sources(cs) == Sources(prefix);
      }
    }
  }

  /** The target column of the alignment, dropping `null`s, is `b[..j]`. */
  lemma {:induction false} AlignmentTargets<A>(a: seq<A>, b: seq<A>, eq: (A, A) -> bool, i: nat, j: nat)
    requires i <= |a| && j <= |b|
    ensures Targets(Alignment(a, b, eq, i, j)) == b[..j]
    decreases i + j
  {
    if i > 0 || j > 0 {
      var i', j', item := AlignmentLast(a, b, eq, i, j);
      AlignmentTargets(a, b, eq, i', j');
      var prefix := Alignment(a, b, eq, i', j');
      var cs := prefix + [item];
      assert cs[..|cs| - 1] == prefix;
      if j' < j {
        assert Targets(cs) == Targets(prefix) + [b[j - 1]];
        assert b[..j] == b[..j'] + [b[j - 1]];
      } else {
        assert Targets(cs) == Targets(prefix);
      }
    }
  }

  /**
   * Every step consumes at least one item; every `Keep` pairs two items that
   * `eq` calls equal.
   */
  lemma {:induction false} AlignmentItems<A>(a: seq<A>, b: seq<A>, eq: (A, A) -> bool, i: nat, j: nat)
    requires i <= |a| && j <= |b|
    ensures forall k :: 0 <= k < |Alignment(a, b, eq, i, j)| ==>
      var c := Alignment(a, b, eq, i, j)[k];
      (c.source.Some? || c.target.Some?) &&
      (c.kind == Keep ==> c.source.Some? && c.target.Some? && eq(c.source.value, c.target.value))
    decreases i + j
  {
    if i > 0 || j > 0 {
      var i', j', item := AlignmentStep(a, b, eq, i, j);
      AlignmentItems(a, b, eq, i', j');
    }
  }

  /** The number of `Change` steps is the edit distance `d[m][n]`. */
  lemma {:induction false} AlignmentChangeCount<A>(a: seq<A>, b: seq<A>, eq: (A, A) -> bool, i: nat, j: nat)
    requires i <= |a| && j <= |b|
    ensures ChangeCount(Alignment(a, b, eq, i, j)) == Distance(a, b, eq, i, j)
    decreases i + j
  {
    if i > 0 || j > 0 {
      var i', j', item := AlignmentStep(a, b, eq, i, j);
      AlignmentChangeCount(a, b, eq, i', j');
      var cs := Alignment(a, b, eq, i', j') + [item];
      assert cs[..|cs| - 1] == Alignment(a, b, eq, i', j');
    }
  }

  /**
   * The alignment has between max(i, j) and i + j steps, so it is empty
   * exactly when both inputs are.
   */
  lemma {:induction false} AlignmentLength<A>(a: seq<A>, b: seq<A>, eq: (A, A) -> bool, i: nat, j: nat)
    requires i <= |a| && j <= |b|
    ensures i <= |Alignment(a, b, eq, i, j)| <= i + j
    ensures j <= |Alignment(a, b, eq, i, j)|
    decreases i + j
  {
    if i > 0 || j > 0 {
      var i', j', item := AlignmentStep(a, b, eq, i, j);
      AlignmentLength(a, b, eq, i', j');
    }
  }

  /** The table entry is at least the difference of the lengths and at most the larger length. */
  lemma DistanceBounds<A>(a: seq<A>, b: seq<A>, eq: (A, A) -> bool, i: nat, j: nat)
    requires i <= |a| && j <= |b|
    ensures i - j <= Distance(a, b, eq, i, j) && j - i <= Distance(a, b, eq, i, j)
    ensures Distance(a, b, eq, i, j) <= if i <= j then j else i
  {
    DistanceAtLeast(a, b, eq, i, j);
    DistanceAtMost(a, b, eq, i, j);
  }

  /** The distance is at least the difference of the lengths. */
  lemma {:induction false} DistanceAtLeast<A>(a: seq<A>, b: seq<A>, eq: (A, A) -> bool, i: nat, j: nat)
    requires i <= |a| && j <= |b|
    ensures i - j <= Distance(a, b, eq, i, j) && j - i <= Distance(a, b, eq, i, j)
    decreases i + j
  {
    if i > 0 && j > 0 {
      DistanceAtLeast(a, b, eq, i - 1, j - 1);
      if !eq(a[i - 1], b[j - 1]) {
        DistanceAtLeast(a, b, eq, i - 1, j);
        DistanceAtLeast(a, b, eq, i, j - 1);
        var up, left, diagonal := Distance(a, b, eq, i - 1, j), Distance(a, b, eq, i, j - 1), Distance(a, b, eq, i - 1, j - 1);
        assert Distance(a, b, eq, i, j) == Min3(up, left, diagonal) + 1;
      }
    }
  }

  /** The distance is at most the longer length. */
  lemma {:induction false} DistanceAtMost<A>(a: seq<A>, b: seq<A>, eq: (A, A) -> bool, i: nat, j: nat)
    requires i <= |a| && j <= |b|
    ensures Distance(a, b, eq, i, j) <= if i <= j then j else i
    decreases i + j
  {
    if i > 0 && j > 0 {
      DistanceAtMost(a, b, eq, i - 1, j - 1);
    }
  }

  /** The filled table `d` of `changedItems`: `d[i, j]` is `Distance(a, b, eq, i, j)`. */
  method DistanceTable<A>(a: seq<A>, b: seq<A>, eq: (A, A) -> bool) returns (d: array2<int>)
    ensures fresh(d) && d.Length0 == |a| + 1 && d.Length1 == |b| + 1
    ensures forall i, j :: 0 <= i <= |a| && 0 <= j <= |b| ==> d[i, j] == Distance(a, b, eq, i, j)
  {
    var m := |a|;
    var n := |b|;
    d := new int[m + 1, n + 1];
    for i := 0 to m + 1
      invariant i > 0 ==> d[0, 0] == 0
    {
      for j := 0 to n + 1
        invariant i > 0 || j > 0 ==> d[0, 0] == 0
      {
        d[i, j] := 0;
      }
    }
    for i := 1 to m + 1
      invariant d[0, 0] == 0
      invariant forall i' :: 1 <= i' < i ==> d[i', 0] == i'
    {
      d[i, 0] := i;
    }
    for j := 1 to n + 1
      invariant d[0, 0] == 0
      invariant forall i' :: 1 <= i' <= m ==> d[i', 0] == i'
      invariant forall j' :: 1 <= j' < j ==> d[0, j'] == j'
    {
      d[0, j] := j;
    }
    for j := 1 to n + 1
      invariant forall i', j' {:trigger d[i', j']} :: 0 <= i' <= m && 0 <= j' < j ==> d[i', j'] == Distance(a, b, eq, i', j')
      invariant forall j' {:trigger d[0, j']} :: 0 <= j' <= n ==> d[0, j'] == Distance(a, b, eq, 0, j')
    {
      for i := 1 to m + 1
        invariant forall i', j' {:trigger d[i', j']} :: 0 <= i' <= m && 0 <= j' < j ==> d[i', j'] == Distance(a, b, eq, i', j')
        invariant forall j' {:trigger d[0, j']} :: 0 <= j' <= n ==> d[0, j'] == Distance(a, b, eq, 0, j')
        invariant forall i' {:trigger d[i', j]} :: 0 <= i' < i ==> d[i', j] == Distance(a, b, eq, i', j)
      {
        if eq(a[i - 1], b[j - 1]) {
          d[i, j] := d[i - 1, j - 1];
        } else {
          d[i, j] := Min3(d[i - 1, j], d[i, j - 1], d[i - 1, j - 1]) + 1;
        }
        assert d[i, j] == Distance(a, b, eq, i, j);
      }
    }
  }

  /** `changedItems(first, second, eq)`; `eq` defaults to strict equality. */
  method ChangedItems<A(==)>(first: seq<A>, second: seq<A>, eq: (A, A) -> bool := StrictEquals)
    returns (changes: seq<ChangedItem<A>>)
    ensures changes == Alignment(first, second, eq, |first|, |second|)
    ensures Sources(changes) == first && Targets(changes) == second
    ensures ChangeCount(changes) == Distance(first, second, eq, |first|, |second|)
  {
    var a := first;
    var m := |a|;
    var b := second;
    var n := |b|;
    var d := DistanceTable(a, b, eq);
    changes := Backtrack(a, b, eq, d);
    AlignmentProjections(a, b, eq, m, n);
    AlignmentChangeCount(a, b, eq, m, n);
    assert a[..m] == a && b[..n] == b;
  }

  /** The backtrack loop of `changedItems` over the filled table `d`. */
  method Backtrack<A>(a: seq<A>, b: seq<A>, eq: (A, A) -> bool, d: array2<int>) returns (changes: seq<ChangedItem<A>>)
    requires d.Length0 == |a| + 1 && d.Length1 == |b| + 1
    requires forall i, j :: 0 <= i <= |a| && 0 <= j <= |b| ==> d[i, j] == Distance(a, b, eq, i, j)
    ensures changes == Alignment(a, b, eq, |a|, |b|)
  {
    changes := [];
    var i := |a|;
    var j := |b|;
    ghost var full := Alignment(a, b, eq, i, j);
    while i > 0 || j > 0
      invariant 0 <= i <= |a| && 0 <= j <= |b|
      invariant full == Alignment(a, b, eq, i, j) + changes
      decreases i + j
    {
      ghost var i0, j0, changes0 := i, j, changes;
      var item;
      i, j, item := BacktrackStep(a, b, eq, d, i, j);
      AppendAssociative(Alignment(a, b, eq, i, j), [item], changes0);
      changes := [item] + changes;
    }
  }

  /**
   * One turn of the backtrack loop: the branch taken at (i, j), in the
   * priority keep, substitution, deletion, insertion.
   */
  method BacktrackStep<A>(a: seq<A>, b: seq<A>, eq: (A, A) -> bool, d: array2<int>, i: nat, j: nat)
    returns (i': nat, j': nat, item: ChangedItem<A>)
    requires d.Length0 == |a| + 1 && d.Length1 == |b| + 1
    requires forall i, j :: 0 <= i <= |a| && 0 <= j <= |b| ==> d[i, j] == Distance(a, b, eq, i, j)
    requires i <= |a| && j <= |b| && (i > 0 || j > 0)
    ensures i' <= i && j' <= j && i' + j' < i + j
    ensures Alignment(a, b, eq, i, j) == Alignment(a, b, eq, i', j') + [item]
  {
    var here := d[i, j];
    if i > 0 && j > 0 && eq(a[i - 1], b[j - 1]) {
      item := ChangedItem(Some(a[i - 1]), Some(b[j - 1]), Keep);
      AlignmentDiagonalStep(a, b, eq, i, j);
      i', j' := i - 1, j - 1;
      return;
    }
    if i > 0 && j > 0 {
      var diagonal := d[i - 1, j - 1];
      if here == diagonal + 1 {
        item := ChangedItem(Some(a[i - 1]), Some(b[j - 1]), Change);
        AlignmentDiagonalStep(a, b, eq, i, j);
        i', j' := i - 1, j - 1;
        return;
      }
    }
    if i > 0 {
      var above := d[i - 1, j];
      if here == above + 1 {
        item := ChangedItem(Some(a[i - 1]), None, Change);
        AlignmentDeleteStep(a, b, eq, i, j);
        i', j' := i - 1, j;
        return;
      }
    }
    BacktrackProgress(a, b, eq, i, j);
    AlignmentInsertStep(a, b, eq, i, j);
    item := ChangedItem(None, Some(b[j - 1]), Change);
    i', j' := i, j - 1;
  }

  /** `changedItems('abc', 'aebc')`: keep a, insert e, keep b, keep c. */
  lemma InsertionExample()
    ensures Alignment("abc", "aebc", StrictEquals, 3, 4) == [
      ChangedItem(Some('a'), Some('a'), Keep),
      ChangedItem(None, Some('e'), Change),
      ChangedItem(Some('b'), Some('b'), Keep),
      ChangedItem(Some('c'), Some('c'), Keep)]
  {
  }

  /** `changedItems('figh', 'fgh')`: keep f, delete i, keep g, keep h. */
  lemma DeletionExample()
    ensures Alignment("figh", "fgh", StrictEquals, 4, 3) == [
      ChangedItem(Some('f'), Some('f'), Keep),
      ChangedItem(Some('i'), None, Change),
      ChangedItem(Some('g'), Some('g'), Keep),
      ChangedItem(Some('h'), Some('h'), Keep)]
  {
  }

  /** `changedItems('jklm', 'jkml')`: a swap comes out as two substitutions. */
  lemma SwapExample()
    ensures Alignment("jklm", "jkml", StrictEquals, 4, 4) == [
      ChangedItem(Some('j'), Some('j'), Keep),
      ChangedItem(Some('k'), Some('k'), Keep),
      ChangedItem(Some('l'), Some('m'), Change),
      ChangedItem(Some('m'), Some('l'), Change)]
  {
  }

  /** `changedItems('nopq', 'nope')`: a substitution at the end. */
  lemma SubstitutionExample()
    ensures Alignment("nopq", "nope", StrictEquals, 4, 4) == [
      ChangedItem(Some('n'), Some('n'), Keep),
      ChangedItem(Some('o'), Some('o'), Keep),
      ChangedItem(Some('p'), Some('p'), Keep),
      ChangedItem(Some('q'), Some('e'), Change)]
  {
  }

  /** `changedItems([1, 2, 3], [1, 4, 3])`: items need not be characters. */
  lemma NumberExample()
    ensures Alignment([1, 2, 3], [1, 4, 3], StrictEquals, 3, 3) == [
      ChangedItem(Some(1), Some(1), Keep),
      ChangedItem(Some(2), Some(4), Change),
      ChangedItem(Some(3), Some(3), Keep)]
  {
  }

  /** `changedItems` over arrays of strings compares whole lines. */
  lemma LineArrayExample()
    ensures Alignment(["aba", "bcb", "cdc"], ["aba", "efe", "bcb", "cdc"], StrictEquals, 3, 4) == [
      ChangedItem(Some("aba"), Some("aba"), Keep),
      ChangedItem(None, Some("efe"), Change),
      ChangedItem(Some("bcb"), Some("bcb"), Keep),
      ChangedItem(Some("cdc"), Some("cdc"), Keep)]
  {
  }

  /** A comparison other than strict equality: letters equal up to case. */
  function SameLetter(x: char, y: char): bool
  {
    x == y || ('a' <= x <= 'z' && y == x - 'a' + 'A') || ('a' <= y <= 'z' && x == y - 'a' + 'A')
  }

  /** With a custom `eq`, items it calls equal are kept even when they differ. */
  lemma CustomEqualityExample()
    ensures Alignment("ab", "aB", SameLetter, 2, 2) == [
      ChangedItem(Some('a'), Some('a'), Keep),
      ChangedItem(Some('b'), Some('B'), Keep)]
  {
  }
}
