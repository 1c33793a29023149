/**
 * Normalising the possible forms of a fragment into a `CodeFragment`, a
 * pair of measured tokens for the code before and after a transition.
 */
module Fragments {
  import opened Text
  import opened Tokens

  /** One side of a `{before, after}` pair: a string still to measure, or a token. */
  datatype Side = StrSide(text: string) | TokenSide(token: CodeToken)

  /**
   * `PossibleCodeFragment`: a string, a measured token, or a
   * `{before, after}` pair whose sides are strings or tokens (a normalised
   * `CodeFragment` is the pair with two token sides).
   */
  datatype PossibleCodeFragment =
    | StrFragment(text: string)
    | TokenFragment(token: CodeToken)
    | PairFragment(before: Side, after: Side)

  /** A normalised fragment: the token shown before and the one shown after. */
  datatype CodeFragment = CodeFragment(before: CodeToken, after: CodeToken)

  /** The text a side stands for: the string itself, or the token's `content`. */
  function SideText(side: Side): string
  {
    match side
    case StrSide(s) => s
    case TokenSide(t) => t.content
  }

  /**
   * The text a fragment stands for on the chosen side: a string or a token
   * reads the same on both sides, a pair reads its `after` side exactly
   * when `after` is chosen.
   */
  function FragmentText(value: PossibleCodeFragment, after: bool): string
  {
    match value
    case StrFragment(s) => s
    case TokenFragment(t) => t.content
    case PairFragment(b, a) => if after then SideText(a) else SideText(b)
  }

  /** `tokenToFragment`: a static fragment showing `value` on both sides. */
  function TokenToFragment(value: CodeToken): (f: CodeFragment)
    ensures f.before == value && f.after == value
  {
    CodeFragment(value, value)
  }

  /** A side as `parseCodeFragment` normalises it: a string is measured, a token is kept. */
  function MeasureSide(side: Side, measure: string -> int): (t: CodeToken)
    ensures t.content == SideText(side)
    ensures side.TokenSide? ==> t == side.token
  {
    match side
    case StrSide(s) => MeasureString(s, measure)
    case TokenSide(t) => t
  }

  /**
   * `parseCodeFragment`: a string is measured and shown on both sides, a
   * token is shown on both sides, and each side of a pair is measured
   * independently.  Either way, the content of each side is the text the
   * fragment stands for on that side.
   */
  function ParseCodeFragment(value: PossibleCodeFragment, measure: string -> int): (f: CodeFragment)
    ensures f.before.content == FragmentText(value, false)
    ensures f.after.content == FragmentText(value, true)
    ensures value.StrFragment? ==> f.before == f.after == MeasureString(value.text, measure)
    ensures value.TokenFragment? ==> f.before == f.after == value.token
    ensures value.PairFragment? ==>
      f.before == MeasureSide(value.before, measure) && f.after == MeasureSide(value.after, measure)
  {
    match value
    case StrFragment(s) => TokenToFragment(MeasureString(s, measure))
    case TokenFragment(t) => TokenToFragment(t)
    case PairFragment(b, a) => CodeFragment(MeasureSide(b, measure), MeasureSide(a, measure))
  }

  /** A normalised fragment given back as a pair of token sides. */
  function AsPossible(f: CodeFragment): PossibleCodeFragment
  {
    PairFragment(TokenSide(f.before), TokenSide(f.after))
  }

  /** Parsing is idempotent: an already normalised fragment comes back unchanged. */
  lemma ParseIdempotent(value: PossibleCodeFragment, measure: string -> int)
    ensures ParseCodeFragment(AsPossible(ParseCodeFragment(value, measure)), measure) == ParseCodeFragment(value, measure)
  {
  }

  /** A string is shown with the same measured token on both sides. */
  lemma StringFragmentIsStatic(s: string, measure: string -> int)
    ensures ParseCodeFragment(StrFragment(s), measure).before == ParseCodeFragment(StrFragment(s), measure).after
    ensures ParseCodeFragment(StrFragment(s), measure).before.content == s
    ensures ParseCodeFragment(StrFragment(s), measure).before.newRows == Count(s, '\n')
  {
    TokenRows(s, measure);
  }
}
