/** Python string operations the skill relies on: `in`, `str.split(sep)` and `sep.join(...)`. */
module Text {

  /** `t` occurs in `s` starting at index `i`. */
  predicate OccursAt(s: string, t: string, i: int) {
    0 <= i && i + |t| <= |s| && s[i..i + |t|] == t
  }

  /** Python's `t in s`. */
  predicate Contains(s: string, t: string) {
    exists i | 0 <= i <= |s| - |t| :: OccursAt(s, t, i)
  }

  /** Python's `s.endswith(t)`. */
  predicate EndsWith(s: string, t: string) {
    |t| <= |s| && s[|s| - |t|..] == t
  }

  /** Python's `sep.join(words)`. */
  function Join(words: seq<string>, sep: string): string
    decreases |words|
  {
    if |words| == 0 then ""
    else if |words| == 1 then words[0]
    else words[0] + sep + Join(words[1..], sep)
  }

  /** Python's `s.split(sep)` for a non-empty separator: the separator is searched
      for from the left, and each occurrence found ends the current piece. */
  function Split(s: string, sep: string): (pieces: seq<string>)
    requires |sep| > 0
    ensures |pieces| >= 1
    decreases |s|
  {
    if |s| < |sep| then [s]
    else if s[..|sep|] == sep then [""] + Split(s[|sep|..], sep)
    else
      var rest := Split(s[1..], sep);
      [[s[0]] + rest[0]] + rest[1..]
  }

  /** Joining the pieces of a split with the separator gives back the string. */
  lemma {:induction false} JoinSplit(s: string, sep: string)
    requires |sep| > 0
    ensures Join(Split(s, sep), sep) == s
    decreases |s|
  {
    if |s| < |sep| {
    } else if s[..|sep|] == sep {
      JoinSplit(s[|sep|..], sep);
      JoinAfterEmpty(Split(s[|sep|..], sep), sep);
      assert s == sep + s[|sep|..];
    } else {
      JoinSplit(s[1..], sep);
      JoinAfterChar(s[0], Split(s[1..], sep), sep);
      assert s == [s[0]] + s[1..];
    }
  }

  /** Joining an empty first piece puts the separator in front of the rest. */
  lemma JoinAfterEmpty(rest: seq<string>, sep: string)
    requires |rest| > 0
    ensures Join([""] + rest, sep) == sep + Join(rest, sep)
  {
    assert ([""] + rest)[1..] == rest;
  }

  /** Joining pieces whose first one starts with `c` puts `c` in front of the join. */
  lemma JoinAfterChar(c: char, rest: seq<string>, sep: string)
    requires |rest| > 0
    ensures Join([[c] + rest[0]] + rest[1..], sep) == [c] + Join(rest, sep)
  {
    var pieces := [[c] + rest[0]] + rest[1..];
    assert pieces[0] == [c] + rest[0] && pieces[1..] == rest[1..];
    if |rest| > 1 {
      assert Join(rest, sep) == rest[0] + sep + Join(rest[1..], sep);
      assert Join(pieces, sep) == ([c] + rest[0]) + sep + Join(rest[1..], sep);
    }
  }

  /** Python's `xs[-1]`. */
  function Last<T>(xs: seq<T>): T
    requires |xs| > 0
  {
    xs[|xs| - 1]
  }

  /** An occurrence of `t` in a suffix of `s` is an occurrence in `s`. */
  lemma OccursInSuffix(s: string, t: string, lo: int, i: int)
    requires 0 <= lo <= |s|
    requires OccursAt(s[lo..], t, i)
    ensures OccursAt(s, t, lo + i)
  {
    forall k | 0 <= k < |t|
      ensures s[lo + i..lo + i + |t|][k] == t[k]
    {
      assert s[lo..][i..i + |t|][k] == t[k];
    }
  }

  /** The shape `LastPieceShape` proves of the last piece of a split. */
  predicate TailShape(s: string, sep: string, pieces: seq<string>)
    requires |pieces| > 0
  {
    var tail := Last(pieces);
    |tail| <= |s| && s[|s| - |tail|..] == tail && !Contains(tail, sep) &&
    (|pieces| == 1 ==> tail == s) &&
    (|pieces| > 1 ==> |tail| + |sep| <= |s| && OccursAt(s, sep, |s| - |tail| - |sep|))
  }

  /** A suffix of a suffix of `s` is a suffix of `s`. */
  lemma SuffixOfSuffix(s: string, lo: int, tail: string)
    requires 0 <= lo <= |s| && |tail| <= |s| - lo
    requires s[lo..][|s| - lo - |tail|..] == tail
    ensures s[|s| - |tail|..] == tail
  {
  }

  /** Step of `LastPieceShape` when `s` starts with the separator. */
  lemma ShapeAfterSeparator(s: string, sep: string, pieces: seq<string>)
    requires |sep| > 0 && |sep| <= |s| && s[..|sep|] == sep
    requires TailShape(s[|sep|..], sep, Split(s[|sep|..], sep))
    requires pieces == Split(s, sep)
    ensures TailShape(s, sep, pieces)
  {
    var rest := Split(s[|sep|..], sep);
    assert pieces == [""] + rest;
    SplitAtSeparator(s, sep, pieces, rest);
  }

  /** `ShapeAfterSeparator`, once the first piece is known to be empty. */
  lemma SplitAtSeparator(s: string, sep: string, pieces: seq<string>, rest: seq<string>)
    requires |sep| > 0 && |sep| <= |s| && s[..|sep|] == sep
    requires |rest| > 0 && pieces == [""] + rest
    requires TailShape(s[|sep|..], sep, rest)
    ensures TailShape(s, sep, pieces)
  {
    var tail := Last(rest);
    assert Last(pieces) == tail;
    SuffixOfSuffix(s, |sep|, tail);
    if |rest| == 1 {
      assert OccursAt(s, sep, 0);
    } else {
      OccursInSuffix(s, sep, |sep|, |s| - |sep| - |tail| - |sep|);
    }
  }

  /** Step of `LastPieceShape` when no separator starts at index 0 of `s`. */
  lemma ShapeAfterChar(s: string, sep: string, pieces: seq<string>)
    requires |sep| > 0 && |sep| <= |s| && s[..|sep|] != sep
    requires TailShape(s[1..], sep, Split(s[1..], sep))
    requires pieces == Split(s, sep)
    ensures TailShape(s, sep, pieces)
  {
    var rest := Split(s[1..], sep);
    assert pieces == [[s[0]] + rest[0]] + rest[1..];
    if |rest| == 1 {
      UnsplitAfterChar(s, sep, pieces);
    } else {
      SplitAfterChar(s, sep, pieces, rest);
    }
  }

  /** `ShapeAfterChar` when nothing was split off `s[1..]`. */
  lemma UnsplitAfterChar(s: string, sep: string, pieces: seq<string>)
    requires |sep| > 0 && |sep| <= |s| && s[..|sep|] != sep
    requires !Contains(s[1..], sep)
    requires |pieces| == 1 && pieces[0] == [s[0]] + s[1..]
    ensures TailShape(s, sep, pieces)
  {
    assert Last(pieces) == s;
    NoSeparatorAfterChar(s, sep);
  }

  /** `ShapeAfterChar` when `s[1..]` was split. */
  lemma SplitAfterChar(s: string, sep: string, pieces: seq<string>, rest: seq<string>)
    requires |sep| > 0 && 1 <= |s|
    requires |rest| > 1 && pieces == [[s[0]] + rest[0]] + rest[1..]
    requires TailShape(s[1..], sep, rest)
    ensures TailShape(s, sep, pieces)
  {
    var tail := Last(rest);
    assert Last(pieces) == tail;
    SuffixOfSuffix(s, 1, tail);
    OccursInSuffix(s, sep, 1, |s| - 1 - |tail| - |sep|);
  }

  /** If no separator starts at index 0 of `s` and none occurs in `s[1..]`, none occurs in `s`. */
  lemma NoSeparatorAfterChar(s: string, sep: string)
    requires |sep| > 0 && |sep| <= |s| && s[..|sep|] != sep
    requires !Contains(s[1..], sep)
    ensures !Contains(s, sep)
  {
    if Contains(s, sep) {
      var i :| 0 <= i <= |s| - |sep| && OccursAt(s, sep, i);
      if i > 0 {
        assert s[1..][i - 1..i - 1 + |sep|] == s[i..i + |sep|];
        assert OccursAt(s[1..], sep, i - 1);
      }
      assert false;
    }
  }

  /** The last piece of `Split(s, sep)` is a suffix of `s` free of `sep`; it is the whole
      of `s` when nothing was split off, and otherwise it is preceded by `sep`. */
  lemma {:induction false} LastPieceShape(s: string, sep: string)
    requires |sep| > 0
    ensures TailShape(s, sep, Split(s, sep))
    decreases |s|
  {
    if |s| < |sep| {
    } else if s[..|sep|] == sep {
      LastPieceShape(s[|sep|..], sep);
      ShapeAfterSeparator(s, sep, Split(s, sep));
    } else {
      LastPieceShape(s[1..], sep);
      ShapeAfterChar(s, sep, Split(s, sep));
    }
  }

  /** A string that holds no occurrence of the separator is not split. */
  lemma SplitWithoutSeparator(s: string, sep: string)
    requires |sep| > 0
    requires !Contains(s, sep)
    ensures Split(s, sep) == [s]
  {
    LastPieceShape(s, sep);
  }

  /** Splitting a word that holds no character of the separator's first character
      glues the word onto the first piece of what follows. */
  lemma {:induction false} SplitAfterWord(w: string, rest: string, sep: string)
    requires |sep| > 0
    requires sep[0] !in w
    ensures var r := Split(rest, sep);
      Split(w + rest, sep) == [w + r[0]] + r[1..]
    decreases |w|
  {
    var r := Split(rest, sep);
    if |w| == 0 {
      assert w + rest == rest && w + r[0] == r[0];
      assert [r[0]] + r[1..] == r;
    } else {
      var s := w + rest;
      SplitAfterWord(w[1..], rest, sep);
      assert s[1..] == w[1..] + rest;
      if |s| < |sep| {
        assert !Contains(rest, sep);
        SplitWithoutSeparator(rest, sep);
        assert r == [rest];
      } else {
        assert s[0] == w[0] != sep[0];
        assert s[..|sep|] != sep;
        assert [s[0]] + (w[1..] + r[0]) == w + r[0];
      }
    }
  }

  /** Joining words that avoid the separator's first character and splitting the result
      gives back the words. */
  lemma {:induction false} SplitJoin(words: seq<string>, sep: string)
    requires |sep| > 0 && |words| >= 1
    requires forall i :: 0 <= i < |words| ==> sep[0] !in words[i]
    ensures Split(Join(words, sep), sep) == words
    decreases |words|
  {
    if |words| == 1 {
      SplitAfterWord(words[0], "", sep);
      assert words[0] + "" == words[0];
    } else {
      var tail := Join(words[1..], sep);
      SplitJoin(words[1..], sep);
      var after := sep + tail;
      assert after[..|sep|] == sep && after[|sep|..] == tail;
      assert Split(after, sep) == [""] + words[1..];
      SplitAfterWord(words[0], after, sep);
      assert Join(words, sep) == words[0] + after;
      assert words[0] + "" == words[0];
      assert [words[0]] + words[1..] == words;
    }
  }

  /** `t` does not occur in `s` when one of its characters is missing from `s`. */
  lemma NoOccurrenceWithoutChar(s: string, t: string, k: int)
    requires 0 <= k < |t| && t[k] !in s
    ensures !Contains(s, t)
  {
  }

  /** `t` does not occur in `s` when its first character is never followed in `s` by its
      second. */
  lemma NoOccurrenceWithoutPair(s: string, t: string)
    requires |t| >= 2
    requires forall i :: 0 <= i < |s| - 1 && s[i] == t[0] ==> s[i + 1] != t[1]
    ensures !Contains(s, t)
  {
    forall i | 0 <= i <= |s| - |t|
      ensures !OccursAt(s, t, i)
    {
      assert s[i..i + |t|][0] == s[i] && s[i..i + |t|][1] == s[i + 1];
    }
  }

  /** Every string contains itself. */
  lemma ContainsItself(s: string)
    ensures Contains(s, s)
  {
    assert OccursAt(s, s, 0);
  }
}
