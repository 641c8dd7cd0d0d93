// Ordinal string operations of the .NET base library, as the texture checker
// uses them: Trim, StartsWith, EndsWith, Contains, Split(char) and
// Replace(string, string). Strings are sequences of UTF-16 code units, so a
// `char` here stands for one code unit.

module Options {
  datatype Option<T> = None | Some(value: T)
}

module Text {

  /** Char.IsWhiteSpace: the Unicode space separators, the line and paragraph
      separators, and the control characters U+0009..U+000D, U+0085. */
  predicate IsWhiteSpace(c: char) {
    || c == ' '
    || ('\t' <= c <= '\r')
    || c == '\U{0085}'
    || c == '\U{00A0}'
    || c == '\U{1680}'
    || ('\U{2000}' <= c <= '\U{200A}')
    || c == '\U{2028}'
    || c == '\U{2029}'
    || c == '\U{202F}'
    || c == '\U{205F}'
    || c == '\U{3000}'
  }

  /** String.TrimStart(): drops the leading white space. */
  function TrimStart(s: string): string
    decreases |s|
  {
    if s != [] && IsWhiteSpace(s[0]) then TrimStart(s[1..]) else s
  }

  /** String.TrimEnd(): drops the trailing white space. */
  function TrimEnd(s: string): string
    decreases |s|
  {
    if s != [] && IsWhiteSpace(s[|s| - 1]) then TrimEnd(s[..|s| - 1]) else s
  }

  /** TrimStart removes a prefix of white space, and no more than that. */
  lemma {:induction false} TrimStartFacts(s: string)
    ensures |TrimStart(s)| <= |s| && TrimStart(s) == s[|s| - |TrimStart(s)|..]
    ensures forall i :: 0 <= i < |s| - |TrimStart(s)| ==> IsWhiteSpace(s[i])
    ensures TrimStart(s) != [] ==> !IsWhiteSpace(TrimStart(s)[0])
    decreases |s|
  {
    if s != [] && IsWhiteSpace(s[0]) {
      TrimStartFacts(s[1..]);
    }
  }

  /** TrimEnd removes a suffix of white space, and no more than that. */
  lemma {:induction false} TrimEndFacts(s: string)
    ensures |TrimEnd(s)| <= |s| && TrimEnd(s) == s[..|TrimEnd(s)|]
    ensures forall i :: |TrimEnd(s)| <= i < |s| ==> IsWhiteSpace(s[i])
    ensures TrimEnd(s) != [] ==> !IsWhiteSpace(TrimEnd(s)[|TrimEnd(s)| - 1])
    decreases |s|
  {
    if s != [] && IsWhiteSpace(s[|s| - 1]) {
      TrimEndFacts(s[..|s| - 1]);
    }
  }

  /** String.Trim(): white space removed from both ends. */
  function Trim(s: string): (r: string)
    ensures r != [] ==> !IsWhiteSpace(r[0]) && !IsWhiteSpace(r[|r| - 1])
  {
    TrimStartFacts(s);
    TrimEndFacts(TrimStart(s));
    TrimEnd(TrimStart(s))
  }

  /** Trim removes white space from both ends and nothing else. */
  lemma TrimIsInfix(s: string)
    ensures exists lo :: BlankSurrounded(s, lo, Trim(s))
  {
    var t := TrimStart(s);
    TrimStartFacts(s);
    TrimEndFacts(t);
    assert BlankSurrounded(s, |s| - |t|, Trim(s));
  }

  /** `r` sits at position `lo` of `s` with only white space around it. */
  predicate BlankSurrounded(s: string, lo: int, r: string) {
    && 0 <= lo <= |s| - |r|
    && r == s[lo..lo + |r|]
    && (forall i :: 0 <= i < lo ==> IsWhiteSpace(s[i]))
    && (forall i :: lo + |r| <= i < |s| ==> IsWhiteSpace(s[i]))
  }

  /** A string whose last character is not white space trims to a non-empty
      string. */
  lemma TrimKeepsNonBlankEnd(s: string)
    requires s != [] && !IsWhiteSpace(s[|s| - 1])
    ensures Trim(s) != []
  {
    var t := TrimStart(s);
    TrimStartFacts(s);
    TrimEndFacts(t);
    assert t != [];
    assert t[|t| - 1] == s[|s| - 1];
  }

  /** String.StartsWith(prefix), ordinal. */
  predicate StartsWith(s: string, prefix: string) {
    |prefix| <= |s| && s[..|prefix|] == prefix
  }

  /** String.EndsWith(suffix), ordinal. */
  predicate EndsWith(s: string, suffix: string) {
    |suffix| <= |s| && s[|s| - |suffix|..] == suffix
  }

  /** String.Contains(value), ordinal: some position of `s` starts with
      `value`. */
  predicate Contains(s: string, value: string)
    decreases |s|
  {
    StartsWith(s, value) || (s != [] && Contains(s[1..], value))
  }

  /** `value` occurs in `s` at position `i`. */
  predicate OccursAt(s: string, value: string, i: int) {
    0 <= i <= |s| - |value| && s[i..i + |value|] == value
  }

  /** Contains agrees with the positional definition of an occurrence. */
  lemma {:induction false} ContainsOccurrence(s: string, value: string)
    ensures Contains(s, value) <==> exists i :: OccursAt(s, value, i)
    decreases |s|
  {
    if s != [] {
      ContainsOccurrence(s[1..], value);
      if StartsWith(s, value) {
        assert OccursAt(s, value, 0);
      }
      if Contains(s[1..], value) {
        var i :| OccursAt(s[1..], value, i);
        assert OccursAt(s, value, i + 1);
      }
      if i :| OccursAt(s, value, i) {
        if i > 0 {
          assert OccursAt(s[1..], value, i - 1);
        } else {
          assert StartsWith(s, value);
        }
      }
    } else {
      if Contains(s, value) {
        assert OccursAt(s, value, 0);
      }
      if i :| OccursAt(s, value, i) {
        assert value == [] && s[..0] == value;
      }
    }
  }

  /** Contains with a one-character value is membership of that character. */
  lemma {:induction false} ContainsChar(s: string, c: char)
    ensures Contains(s, [c]) <==> c in s
    decreases |s|
  {
    if s != [] {
      ContainsChar(s[1..], c);
      assert s == [s[0]] + s[1..];
    }
  }

  /** String.Split(separator): the pieces between separators, in order; an
      empty string gives one empty piece. */
  function Split(s: string, separator: char): (parts: seq<string>)
    ensures |parts| >= 1
    ensures forall k :: 0 <= k < |parts| ==> separator !in parts[k]
    decreases |s|
  {
    if s == [] then [""]
    else
      var rest := Split(s[1..], separator);
      if s[0] == separator then [""] + rest
      else [[s[0]] + rest[0]] + rest[1..]
  }

  /** String.Join(separator, parts): the inverse of Split. */
  function Join(parts: seq<string>, separator: char): string
    requires |parts| >= 1
    decreases |parts|
  {
    if |parts| == 1 then parts[0] else parts[0] + [separator] + Join(parts[1..], separator)
  }

  /** Joining the pieces of a split gives back the original text. */
  lemma {:induction false} JoinSplit(s: string, separator: char)
    ensures Join(Split(s, separator), separator) == s
    decreases |s|
  {
    if s != [] {
      var rest := Split(s[1..], separator);
      JoinSplit(s[1..], separator);
      if s[0] == separator {
        assert ([""] + rest)[1..] == rest;
      } else if |rest| > 1 {
        var parts := [[s[0]] + rest[0]] + rest[1..];
        assert parts[1..] == rest[1..];
        assert s == [s[0]] + s[1..];
      }
    }
  }

  /** A piece without a separator, then a separator, starts a split. */
  lemma {:induction false} SplitAfterPiece(piece: string, separator: char, tail: string)
    requires separator !in piece
    ensures Split(piece + [separator] + tail, separator) == [piece] + Split(tail, separator)
    decreases |piece|
  {
    var s := piece + [separator] + tail;
    if piece == [] {
      assert s[1..] == tail;
    } else {
      assert s[1..] == piece[1..] + [separator] + tail;
      SplitAfterPiece(piece[1..], separator, tail);
      assert [piece[0]] + piece[1..] == piece;
    }
  }

  /** Text without a separator splits into itself alone. */
  lemma {:induction false} SplitWithoutSeparator(s: string, separator: char)
    requires separator !in s
    ensures Split(s, separator) == [s]
    decreases |s|
  {
    if s != [] {
      SplitWithoutSeparator(s[1..], separator);
      assert [s[0]] + s[1..] == s;
    }
  }

  /** Splitting the join of separator-free pieces gives back the pieces. */
  lemma {:induction false} SplitJoin(parts: seq<string>, separator: char)
    requires |parts| >= 1
    requires forall k :: 0 <= k < |parts| ==> separator !in parts[k]
    ensures Split(Join(parts, separator), separator) == parts
    decreases |parts|
  {
    if |parts| == 1 {
      SplitWithoutSeparator(parts[0], separator);
    } else {
      SplitJoin(parts[1..], separator);
      SplitAfterPiece(parts[0], separator, Join(parts[1..], separator));
      assert [parts[0]] + parts[1..] == parts;
    }
  }

  /** String.Replace(pattern, replacement), ordinal: every occurrence of the
      non-empty `pattern`, found left to right without overlap, is replaced.
      .NET throws on an empty pattern, hence the precondition. */
  function ReplaceAll(s: string, pattern: string, replacement: string): string
    requires pattern != []
    decreases |s|
  {
    if StartsWith(s, pattern) then replacement + ReplaceAll(s[|pattern|..], pattern, replacement)
    else if s == [] then []
    else [s[0]] + ReplaceAll(s[1..], pattern, replacement)
  }

  /** Replacing a pattern that does not occur changes nothing. */
  lemma {:induction false} ReplaceAllAbsent(s: string, pattern: string, replacement: string)
    requires pattern != [] && !Contains(s, pattern)
    ensures ReplaceAll(s, pattern, replacement) == s
    decreases |s|
  {
    if s != [] {
      ReplaceAllAbsent(s[1..], pattern, replacement);
      assert [s[0]] + s[1..] == s;
    }
  }

  /** Replacing a pattern removes every occurrence of it when the replacement
      is empty and the pattern cannot be re-formed across a cut. Only the
      simpler step used by the texture checker is stated here: a leading
      occurrence is consumed whole. */
  lemma ReplaceAllLeading(pattern: string, replacement: string, tail: string)
    requires pattern != []
    ensures ReplaceAll(pattern + tail, pattern, replacement)
            == replacement + ReplaceAll(tail, pattern, replacement)
  {
    var s := pattern + tail;
    assert s[..|pattern|] == pattern;
    assert s[|pattern|..] == tail;
  }

  /** Text that does not start with the pattern keeps its first character. */
  lemma ReplaceAllCopies(c: char, tail: string, pattern: string, replacement: string)
    requires pattern != [] && !StartsWith([c] + tail, pattern)
    ensures ReplaceAll([c] + tail, pattern, replacement)
            == [c] + ReplaceAll(tail, pattern, replacement)
  {
    assert ([c] + tail)[1..] == tail;
  }

  /** A prefix none of whose characters starts the pattern is copied through. */
  lemma {:induction false} ReplaceAllCopiesPrefix(prefix: string, tail: string, pattern: string, replacement: string)
    requires pattern != [] && forall k :: 0 <= k < |prefix| ==> prefix[k] != pattern[0]
    ensures ReplaceAll(prefix + tail, pattern, replacement)
            == prefix + ReplaceAll(tail, pattern, replacement)
    decreases |prefix|
  {
    if prefix != [] {
      ReplaceAllCopiesPrefix(prefix[1..], tail, pattern, replacement);
      assert prefix + tail == [prefix[0]] + (prefix[1..] + tail);
      ReplaceAllCopies(prefix[0], prefix[1..] + tail, pattern, replacement);
      calc {
        ReplaceAll(prefix + tail, pattern, replacement);
        [prefix[0]] + ReplaceAll(prefix[1..] + tail, pattern, replacement);
        [prefix[0]] + (prefix[1..] + ReplaceAll(tail, pattern, replacement));
        { assert [prefix[0]] + prefix[1..] == prefix; }
        prefix + ReplaceAll(tail, pattern, replacement);
      }
    } else {
      assert prefix + tail == tail;
    }
  }
}
