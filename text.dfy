/**
 * Line splitting and joining on '\n', with the meaning of JavaScript's
 * `value.split('\n')` and `lines.join('\n')`.  Shared by the token
 * measurement and the indentation correction.
 */
module Text {

  /** Number of occurrences of `c` in `s`. */
  function Count(s: string, c: char): nat
  {
    if s == [] then 0 else (if s[0] == c then 1 else 0) + Count(s[1..], c)
  }

  /** `s.split('\n')`: the pieces between newlines, in order; always at least one. */
  function Split(s: string): (lines: seq<string>)
    ensures |lines| >= 1
  {
    if s == [] then [""]
    else
      var rest := Split(s[1..]);
      if s[0] == '\n' then [""] + rest
      else [[s[0]] + rest[0]] + rest[1..]
  }

  /** `lines.join('\n')`. */
  function Join(lines: seq<string>): string
  {
    if lines == [] then ""
    else if |lines| == 1 then lines[0]
    else lines[0] + "\n" + Join(lines[1..])
  }

  /** The last element of a non-empty sequence. */
  function Last<T>(s: seq<T>): T
    requires |s| > 0
  {
    s[|s| - 1]
  }

  /** No piece of `lines` contains a newline. */
  predicate NoNewlines(lines: seq<string>)
  {
    forall k :: 0 <= k < |lines| ==> '\n' !in lines[k]
  }

  /** Splitting yields one more piece than there are newlines. */
  lemma {:induction false} SplitCount(s: string)
    ensures |Split(s)| == Count(s, '\n') + 1
  {
    if s != [] {
      SplitCount(s[1..]);
    }
  }

  /** No piece of a split contains the separator. */
  lemma {:induction false} SplitHasNoNewlines(s: string)
    ensures NoNewlines(Split(s))
  {
    if s != [] {
      SplitHasNoNewlines(s[1..]);
      var rest := Split(s[1..]);
      if s[0] != '\n' {
        assert '\n' !in rest[0];
        assert Split(s)[0] == [s[0]] + rest[0];
        forall k | 0 <= k < |Split(s)| ensures '\n' !in Split(s)[k] {
          if k > 0 { assert Split(s)[k] == rest[k]; }
        }
      }
    }
  }

  /** Joining the pieces of a split gives back the text. */
  lemma {:induction false} JoinSplit(s: string)
    ensures Join(Split(s)) == s
  {
    if s != [] {
      JoinSplit(s[1..]);
      var rest := Split(s[1..]);
      if s[0] == '\n' {
        assert Split(s) == [""] + rest;
        assert Split(s)[1..] == rest;
      } else {
        var lines := Split(s);
        assert lines[1..] == rest[1..];
        if |rest| == 1 {
          assert Join(lines) == [s[0]] + rest[0];
        } else {
          assert Join(rest) == rest[0] + "\n" + Join(rest[1..]);
          assert Join(lines) == ([s[0]] + rest[0]) + "\n" + Join(rest[1..]);
        }
      }
    }
  }

  /** Splitting a text that starts with a newline-free piece `x`. */
  lemma {:induction false} SplitPrefix(x: string, t: string)
    requires '\n' !in x
    ensures Split(x + t) == [x + Split(t)[0]] + Split(t)[1..]
  {
    if x != [] {
      SplitPrefix(x[1..], t);
      var rest := Split(x[1..] + t);
      assert (x + t)[1..] == x[1..] + t;
      assert (x + t)[0] == x[0] && x[0] != '\n';
      assert Split(x + t) == [[x[0]] + rest[0]] + rest[1..];
      assert [x[0]] + (x[1..] + Split(t)[0]) == x + Split(t)[0];
    } else {
      assert x + t == t;
      assert x + Split(t)[0] == Split(t)[0];
      assert Split(t) == [Split(t)[0]] + Split(t)[1..];
    }
  }

  /** Splitting the join of newline-free pieces gives back the pieces. */
  lemma {:induction false} SplitJoin(lines: seq<string>)
    requires |lines| >= 1 && NoNewlines(lines)
    ensures Split(Join(lines)) == lines
  {
    if |lines| == 1 {
      SplitPrefix(lines[0], "");
      assert lines[0] + "" == lines[0];
    } else {
      var tail := Join(lines[1..]);
      SplitJoin(lines[1..]);
      assert '\n' !in lines[0];
      SplitPrefix(lines[0], "\n" + tail);
      assert ("\n" + tail)[1..] == tail;
      assert Split("\n" + tail) == [""] + Split(tail);
      assert lines[0] + "\n" + tail == lines[0] + ("\n" + tail);
      assert lines[0] + "" == lines[0];
    }
  }

  /** A character occurs in a text exactly when it is counted there. */
  lemma {:induction false} CountPositive(s: string, c: char)
    ensures Count(s, c) > 0 <==> c in s
  {
    if s != [] {
      CountPositive(s[1..], c);
      assert s == [s[0]] + s[1..];
    }
  }

  /**
   * The last piece of a split is the text after the last newline: a suffix
   * of `s` that is either all of `s` or preceded by a newline.
   */
  lemma LastPieceIsTail(s: string)
    ensures |Last(Split(s))| <= |s|
    ensures s[|s| - |Last(Split(s))|..] == Last(Split(s))
    ensures |Last(Split(s))| < |s| ==> s[|s| - |Last(Split(s))| - 1] == '\n'
  {
    var lines := Split(s);
    var last := Last(lines);
    JoinSplit(s);
    if |lines| == 1 {
      assert s == last;
    } else {
      JoinLast(lines);
      var init := Join(lines[..|lines| - 1]);
      assert s == init + "\n" + last;
      assert s[|init| + 1..] == last;
      assert s[|init|] == '\n';
    }
  }

  /** Joining several pieces puts a newline before the last one. */
  lemma {:induction false} JoinLast(lines: seq<string>)
    requires |lines| > 1
    ensures Join(lines) == Join(lines[..|lines| - 1]) + "\n" + Last(lines)
  {
    if |lines| > 2 {
      JoinLast(lines[1..]);
      assert lines[1..][..|lines| - 2] == lines[..|lines| - 1][1..];
    } else {
      assert lines[..1] == [lines[0]];
    }
  }

  /** The number of UTF-16 code units that encode `c`: two above U+FFFF, one otherwise. */
  function Utf16Units(c: char): nat
  {
    if c as int < 0x1_0000 then 1 else 2
  }

  /** JavaScript's `s.length`: the number of UTF-16 code units of `s`. */
  function Utf16Length(s: string): nat
  {
    if s == [] then 0 else Utf16Units(s[0]) + Utf16Length(s[1..])
  }

  /** Every character of `s` lies in the Basic Multilingual Plane. */
  predicate InBmp(s: string)
  {
    forall i :: 0 <= i < |s| ==> s[i] as int < 0x1_0000
  }

  /**
   * `.length` counts one or two units per character, and exactly one per
   * character when the text lies in the Basic Multilingual Plane.
   */
  lemma {:induction false} Utf16LengthBounds(s: string)
    ensures |s| <= Utf16Length(s) <= 2 * |s|
    ensures Utf16Length(s) == |s| <==> InBmp(s)
  {
    if s != [] {
      Utf16LengthBounds(s[1..]);
      assert forall i :: 1 <= i < |s| ==> s[i] == s[1..][i - 1];
    }
  }
}
