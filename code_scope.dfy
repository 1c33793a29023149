/**
 * The fragment tree: scopes of fragments with a transition progress, the
 * `CODE` template tag that builds their fragment lists, the type guard and
 * normalisation of scopes, and the resolution of a tree to the text it
 * shows before or after the transition.
 */
module Scopes {
  import opened Wrappers
  import opened JsValues
  import opened Tokens
  import opened Fragments

  /**
   * `CodeScope`: fragments shown at a transition `progress` between their
   * before side (0) and after side (1).
   */
  datatype CodeScope = CodeScope(progress: real, fragments: seq<CodeTag>)

  /** `CodeTag`: a fragment in any of its possible forms, or a nested scope. */
  datatype CodeTag = Leaf(fragment: PossibleCodeFragment) | Nested(scope: CodeScope)

  /** `PossibleCodeScope`: a string, an iterable of tags, or a scope. */
  datatype PossibleCodeScope =
    | ScopeString(text: string)
    | ScopeIterable(tags: seq<CodeTag>)
    | ScopeObject(scope: CodeScope)

  /** The `isAfter` argument of `resolveScope`: one side for every scope, or a choice per scope. */
  datatype IsAfter = Fixed(after: bool) | PerScope(choose: CodeScope -> bool)

  /** The side `resolveScope` reads the pairs of `scope` on. */
  function SideOf(isAfter: IsAfter, scope: CodeScope): bool
  {
    match isAfter
    case Fixed(b) => b
    case PerScope(f) => f(scope)
  }

  // ---------------------------------------------------------------------
  // CODE
  // ---------------------------------------------------------------------

  /**
   * How many of the first `n` tags are defined; tags past the end are
   * `undefined`.  Among the first `n`, at most `n - k` more are defined
   * than among the first `k`.
   */
  function DefinedCount(tags: seq<Option<CodeTag>>, n: nat): (r: nat)
    ensures r <= n
  {
    if n == 0 then 0
    else DefinedCount(tags, n - 1) + (if n - 1 < |tags| && tags[n - 1].Some? then 1 else 0)
  }

  /**
   * The first `n` strings of a template with the defined tags among the
   * first `n` tags, each defined tag right after the string before it.
   */
  function Interleaved(strings: seq<string>, tags: seq<Option<CodeTag>>, n: nat): seq<CodeTag>
    requires n <= |strings|
  {
    if n == 0 then []
    else
      Interleaved(strings, tags, n - 1) + [Leaf(StrFragment(strings[n - 1]))] +
      (if n - 1 < |tags| && tags[n - 1].Some? then [tags[n - 1].value] else [])
  }

  /** A template of `n` strings has `n` string fragments and one more fragment per defined tag. */
  lemma {:induction false} InterleavedLength(strings: seq<string>, tags: seq<Option<CodeTag>>, n: nat)
    requires n <= |strings|
    ensures |Interleaved(strings, tags, n)| == n + DefinedCount(tags, n)
  {
    if n > 0 {
      InterleavedLength(strings, tags, n - 1);
    }
  }

  /**
   * The layout of a template: string `i` lands at position `i` plus the
   * number of defined tags before it, and a defined tag `i` right after it.
   */
  lemma {:induction false} InterleavedAt(strings: seq<string>, tags: seq<Option<CodeTag>>, n: nat, i: nat)
    requires i < n <= |strings|
    ensures i + DefinedCount(tags, i) < |Interleaved(strings, tags, n)|
    ensures Interleaved(strings, tags, n)[i + DefinedCount(tags, i)] == Leaf(StrFragment(strings[i]))
    ensures i < |tags| && tags[i].Some? ==>
      i + DefinedCount(tags, i) + 1 < |Interleaved(strings, tags, n)| &&
      Interleaved(strings, tags, n)[i + DefinedCount(tags, i) + 1] == tags[i].value
  {
    InterleavedLength(strings, tags, n - 1);
    if i < n - 1 {
      InterleavedAt(strings, tags, n - 1, i);
    }
  }

  /**
   * The `CODE` template tag: `strings[0], tags[0], strings[1], ...`, each
   * string as a fragment of its own and each defined tag right after the
   * string before it.
   */
  method Code(strings: seq<string>, tags: seq<Option<CodeTag>>) returns (r: seq<CodeTag>)
    ensures r == Interleaved(strings, tags, |strings|)
  {
    r := [];
    for i := 0 to |strings|
      invariant r == Interleaved(strings, tags, i)
    {
      r := r + [Leaf(StrFragment(strings[i]))];
      if i < |tags| && tags[i].Some? {
        r := r + [tags[i].value];
      }
    }
  }

  // ---------------------------------------------------------------------
  // isCodeScope and parseCodeScope
  // ---------------------------------------------------------------------

  /** `isCodeScope`: the value has a defined `fragments`. */
  predicate IsCodeScope(value: Value)
    ensures !value.Object? ==> !IsCodeScope(value)
    ensures value.Object? ==>
      (IsCodeScope(value) <==> "fragments" in value.props && value.props["fragments"] != Undefined)
  {
    HasDefined(value, "fragments")
  }

  /** A side of a pair as a JavaScript value. */
  function SideValue(side: Side): Value
  {
    match side
    case StrSide(s) => Text(s)
    case TokenSide(t) => TokenValue(t)
  }

  /** A tag as the JavaScript value the components receive. */
  function TagValue(tag: CodeTag): Value
    decreases tag, 0
  {
    match tag
    case Leaf(StrFragment(s)) => Text(s)
    case Leaf(TokenFragment(t)) => TokenValue(t)
    case Leaf(PairFragment(b, a)) => Object(map["before" := SideValue(b), "after" := SideValue(a)])
    case Nested(scope) => ScopeValue(scope)
  }

  /** A scope as a JavaScript object with `progress` and `fragments`. */
  function ScopeValue(scope: CodeScope): Value
    decreases scope, 2
  {
    Object(map[
      "progress" := Number(scope.progress),
      "fragments" := Array(TagValues(scope, |scope.fragments|))])
  }

  /** The first `n` fragments of `scope` as JavaScript values. */
  function TagValues(scope: CodeScope, n: nat): seq<Value>
    requires n <= |scope.fragments|
    decreases scope, 1, n
  {
    if n == 0 then [] else TagValues(scope, n - 1) + [TagValue(scope.fragments[n - 1])]
  }

  /**
   * The checks `resolveScope` makes in turn (`typeof` string, `isCodeScope`,
   * the token guard) each pick out exactly one form of tag; what passes
   * none of them is a `{before, after}` pair.
   */
  lemma GuardsPickTheForm(tag: CodeTag)
    ensures TagValue(tag).Text? <==> tag.Leaf? && tag.fragment.StrFragment?
    ensures IsCodeScope(TagValue(tag)) <==> tag.Nested?
    ensures IsCodeToken(TagValue(tag)) <==> tag.Leaf? && tag.fragment.TokenFragment?
  {
    match tag
    case Leaf(StrFragment(s)) =>
    case Leaf(TokenFragment(t)) =>
      assert "fragments" !in TokenValue(t).props;
    case Leaf(PairFragment(b, a)) =>
    case Nested(scope) =>
      assert "content" !in ScopeValue(scope).props;
  }

  /** `parseCodeScope`: a string or an iterable becomes a scope at progress 0; a scope is kept. */
  function ParseCodeScope(value: PossibleCodeScope): (r: CodeScope)
    ensures value.ScopeObject? ==> r == value.scope
    ensures !value.ScopeObject? ==> r.progress == 0.0
    ensures value.ScopeString? ==> r.fragments == [Leaf(StrFragment(value.text))]
    ensures value.ScopeIterable? ==> r.fragments == value.tags
  {
    match value
    case ScopeString(s) => CodeScope(0.0, [Leaf(StrFragment(s))])
    case ScopeIterable(tags) => CodeScope(0.0, tags)
    case ScopeObject(scope) => scope
  }

  /** A string scope starts at progress 0 and resolves to the string on either side. */
  lemma ParsedStringResolves(s: string, isAfter: IsAfter)
    ensures ParseCodeScope(ScopeString(s)).progress == 0.0
    ensures Resolved(ParseCodeScope(ScopeString(s)), isAfter) == s
  {
    var scope := ParseCodeScope(ScopeString(s));
    assert Piece(scope, 0, isAfter) == s;
    assert ResolvedUpTo(scope, 1, isAfter) == "" + s;
  }

  /** An iterable keeps its tags, in order, at progress 0. */
  lemma ParsedIterableKeepsTags(tags: seq<CodeTag>)
    ensures ParseCodeScope(ScopeIterable(tags)).progress == 0.0
    ensures ParseCodeScope(ScopeIterable(tags)).fragments == tags
  {
  }

  /** Parsing a parsed scope changes nothing. */
  lemma ParseIdempotent(value: PossibleCodeScope)
    ensures ParseCodeScope(ScopeObject(ParseCodeScope(value))) == ParseCodeScope(value)
  {
  }

  // ---------------------------------------------------------------------
  // resolveScope
  // ---------------------------------------------------------------------

  /** The text of fragment `i` of `scope`, read on the side `isAfter` picks. */
  function Piece(scope: CodeScope, i: nat, isAfter: IsAfter): string
    requires i < |scope.fragments|
    decreases scope, i + 1, 0
  {
    match scope.fragments[i]
    case Leaf(f) => FragmentText(f, SideOf(isAfter, scope))
    case Nested(inner) => Resolved(inner, isAfter)
  }

  /** The text of the first `n` fragments of `scope`. */
  function ResolvedUpTo(scope: CodeScope, n: nat, isAfter: IsAfter): string
    requires n <= |scope.fragments|
    decreases scope, n, 1
  {
    if n == 0 then "" else ResolvedUpTo(scope, n - 1, isAfter) + Piece(scope, n - 1, isAfter)
  }

  /** The text `resolveScope` gives for `scope`. */
  function Resolved(scope: CodeScope, isAfter: IsAfter): string
    decreases scope, |scope.fragments| + 1, 0
  {
    ResolvedUpTo(scope, |scope.fragments|, isAfter)
  }

  /**
   * `resolveScope`: strings verbatim, nested scopes resolved with the same
   * `isAfter`, tokens by their `content`, and pairs by the side `isAfter`
   * picks for this scope, all concatenated in order.
   */
  method ResolveScope(scope: CodeScope, isAfter: IsAfter) returns (code: string)
    ensures code == Resolved(scope, isAfter)
    decreases scope
  {
    code := "";
    var after := match isAfter case Fixed(b) => b case PerScope(f) => f(scope);
    for i := 0 to |scope.fragments|
      invariant code == ResolvedUpTo(scope, i, isAfter)
    {
      match scope.fragments[i]
      case Leaf(StrFragment(s)) =>
        code := code + s;
      case Nested(inner) =>
        var text := ResolveScope(inner, isAfter);
        code := code + text;
      case Leaf(TokenFragment(t)) =>
        code := code + t.content;
      case Leaf(PairFragment(b, a)) =>
        code := code + if after then SideText(a) else SideText(b);
    }
  }

  /** Two scopes that agree on their first `n` fragments and their side resolve them alike. */
  lemma {:induction false} ResolvedSamePrefix(s1: CodeScope, s2: CodeScope, n: nat, isAfter: IsAfter)
    requires n <= |s1.fragments| && n <= |s2.fragments|
    requires forall k :: 0 <= k < n ==> s1.fragments[k] == s2.fragments[k]
    requires SideOf(isAfter, s1) == SideOf(isAfter, s2)
    ensures ResolvedUpTo(s1, n, isAfter) == ResolvedUpTo(s2, n, isAfter)
  {
    if n > 0 {
      ResolvedSamePrefix(s1, s2, n - 1, isAfter);
      assert Piece(s1, n - 1, isAfter) == Piece(s2, n - 1, isAfter);
    }
  }

  /** Resolving the first `|xs| + k` fragments of `xs + ys`. */
  lemma {:induction false} ResolvedConcatUpTo(p: real, xs: seq<CodeTag>, ys: seq<CodeTag>, k: nat, isAfter: IsAfter)
    requires k <= |ys|
    requires SideOf(isAfter, CodeScope(p, xs + ys)) == SideOf(isAfter, CodeScope(p, xs)) == SideOf(isAfter, CodeScope(p, ys))
    ensures ResolvedUpTo(CodeScope(p, xs + ys), |xs| + k, isAfter) ==
      Resolved(CodeScope(p, xs), isAfter) + ResolvedUpTo(CodeScope(p, ys), k, isAfter)
  {
    var whole := CodeScope(p, xs + ys);
    var front := CodeScope(p, xs);
    var back := CodeScope(p, ys);
    if k == 0 {
      ResolvedSamePrefix(whole, front, |xs|, isAfter);
    } else {
      ResolvedConcatUpTo(p, xs, ys, k - 1, isAfter);
      assert whole.fragments[|xs| + k - 1] == back.fragments[k - 1];
      assert Piece(whole, |xs| + k - 1, isAfter) == Piece(back, k - 1, isAfter);
      var r := Resolved(front, isAfter);
      var a := ResolvedUpTo(back, k - 1, isAfter);
      var b := Piece(back, k - 1, isAfter);
      assert (r + a) + b == r + (a + b);
    }
  }

  /** Resolving a concatenation of fragment lists concatenates their texts. */
  lemma ResolvedConcat(p: real, xs: seq<CodeTag>, ys: seq<CodeTag>, isAfter: IsAfter)
    requires SideOf(isAfter, CodeScope(p, xs + ys)) == SideOf(isAfter, CodeScope(p, xs)) == SideOf(isAfter, CodeScope(p, ys))
    ensures Resolved(CodeScope(p, xs + ys), isAfter) == Resolved(CodeScope(p, xs), isAfter) + Resolved(CodeScope(p, ys), isAfter)
  {
    ResolvedConcatUpTo(p, xs, ys, |ys|, isAfter);
  }

  /** One string fragment per string, in order. */
  function StringTags(ss: seq<string>): (tags: seq<CodeTag>)
    ensures |tags| == |ss|
    ensures forall k :: 0 <= k < |ss| ==> tags[k] == Leaf(StrFragment(ss[k]))
  {
    if ss == [] then [] else StringTags(ss[..|ss| - 1]) + [Leaf(StrFragment(ss[|ss| - 1]))]
  }

  /** The strings of `ss` one after the other. */
  function Concat(ss: seq<string>): string
  {
    if ss == [] then "" else Concat(ss[..|ss| - 1]) + ss[|ss| - 1]
  }

  /** The first `n` fragments of a scope of strings resolve to the first `n` strings, on either side. */
  lemma {:induction false} ResolvedStringsUpTo(p: real, ss: seq<string>, n: nat, isAfter: IsAfter)
    requires n <= |ss|
    ensures ResolvedUpTo(CodeScope(p, StringTags(ss)), n, isAfter) == Concat(ss[..n])
  {
    if n > 0 {
      ResolvedStringsUpTo(p, ss, n - 1, isAfter);
      assert ss[..n][..n - 1] == ss[..n - 1];
    }
  }

  /** A scope of strings resolves to the strings verbatim and in order, on either side. */
  lemma ResolvedStrings(p: real, ss: seq<string>, isAfter: IsAfter)
    ensures Resolved(CodeScope(p, StringTags(ss)), isAfter) == Concat(ss)
  {
    ResolvedStringsUpTo(p, ss, |ss|, isAfter);
    assert ss[..|ss|] == ss;
  }

  /** Up to `n` fragments, a fixed side reads like a choice that always gives that side. */
  lemma {:induction false} FixedSideUpTo(scope: CodeScope, n: nat, b: bool)
    requires n <= |scope.fragments|
    ensures ResolvedUpTo(scope, n, Fixed(b)) == ResolvedUpTo(scope, n, PerScope(_ => b))
    decreases scope, n
  {
    if n > 0 {
      FixedSideUpTo(scope, n - 1, b);
      match scope.fragments[n - 1]
      case Leaf(f) =>
      case Nested(inner) =>
        FixedSideUpTo(inner, |inner.fragments|, b);
        assert Piece(scope, n - 1, Fixed(b)) == Resolved(inner, Fixed(b));
        assert Piece(scope, n - 1, PerScope(_ => b)) == Resolved(inner, PerScope(_ => b));
    }
  }

  /**
   * With a boolean `isAfter` every scope of the tree, nested ones included,
   * is read on that one side.
   */
  lemma FixedSideEverywhere(scope: CodeScope, b: bool)
    ensures Resolved(scope, Fixed(b)) == Resolved(scope, PerScope(_ => b))
  {
    FixedSideUpTo(scope, |scope.fragments|, b);
  }

  /** The first `n` fragments of `scope`, nested scopes included, hold no `{before, after}` pair. */
  predicate StaticUpTo(scope: CodeScope, n: nat)
    requires n <= |scope.fragments|
    decreases scope, n
  {
    n == 0 ||
    (StaticUpTo(scope, n - 1) &&
     match scope.fragments[n - 1]
     case Leaf(f) => !f.PairFragment?
     case Nested(inner) => StaticUpTo(inner, |inner.fragments|))
  }

  /** A tree without pairs reads the same whatever sides are chosen. */
  lemma {:induction false} StaticUpToReadsAlike(scope: CodeScope, n: nat, x: IsAfter, y: IsAfter)
    requires n <= |scope.fragments| && StaticUpTo(scope, n)
    ensures ResolvedUpTo(scope, n, x) == ResolvedUpTo(scope, n, y)
    decreases scope, n
  {
    if n > 0 {
      StaticUpToReadsAlike(scope, n - 1, x, y);
      match scope.fragments[n - 1]
      case Leaf(f) =>
      case Nested(inner) =>
        StaticUpToReadsAlike(inner, |inner.fragments|, x, y);
        assert Piece(scope, n - 1, x) == Resolved(inner, x);
        assert Piece(scope, n - 1, y) == Resolved(inner, y);
    }
  }

  /** A scope of strings, tokens and static nested scopes resolves to one text on both sides. */
  lemma StaticReadsAlike(scope: CodeScope, x: IsAfter, y: IsAfter)
    requires StaticUpTo(scope, |scope.fragments|)
    ensures Resolved(scope, x) == Resolved(scope, y)
  {
    StaticUpToReadsAlike(scope, |scope.fragments|, x, y);
  }
}
