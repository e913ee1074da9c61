/**
 * Python's `str.split(sep)` with an explicit, non-empty separator, and the facts
 * about it that the bus's topic matching, the resource manager's id prefixes and
 * the broker health check rely on.
 */
module Strings {

  predicate StartsWith(s: string, prefix: string) {
    |prefix| <= |s| && s[..|prefix|] == prefix
  }

  /** With a one-character separator, starting with it is a test of the first character. */
  lemma StartsWithChar(s: string, c: char)
    ensures StartsWith(s, [c]) <==> |s| > 0 && s[0] == c
  {
    if |s| > 0 && s[0] != c {
      assert s[..1][0] != [c][0];
    }
  }

  /** `sep` occurs in `s` starting at index `i`. */
  predicate OccursAt(s: string, sep: string, i: int) {
    0 <= i && i + |sep| <= |s| && s[i..i + |sep|] == sep
  }

  /** `sep in s` for strings: some window of `s` equals `sep`. */
  ghost predicate Contains(s: string, sep: string) {
    exists i :: OccursAt(s, sep, i)
  }

  /**
   * `s.split(sep)`: scanning left to right, every non-overlapping occurrence of
   * `sep` ends a piece. There is always at least one piece, and the empty string
   * splits into one empty piece.
   */
  function SplitOn(s: string, sep: string): (pieces: seq<string>)
    requires sep != ""
    ensures |pieces| >= 1
    decreases |s|
  {
    if s == [] then [""]
    else if StartsWith(s, sep) then [""] + SplitOn(s[|sep|..], sep)
    else
      var rest := SplitOn(s[1..], sep);
      [[s[0]] + rest[0]] + rest[1..]
  }

  /** `sep.join(pieces)`. */
  function Join(pieces: seq<string>, sep: string): string
    requires |pieces| >= 1
    decreases |pieces|
  {
    if |pieces| == 1 then pieces[0] else pieces[0] + sep + Join(pieces[1..], sep)
  }

  /** Splitting loses nothing: joining the pieces back gives the original string. */
  lemma {:induction false} JoinSplit(s: string, sep: string)
    requires sep != ""
    ensures Join(SplitOn(s, sep), sep) == s
    decreases |s|
  {
    if s == [] {
    } else if StartsWith(s, sep) {
      JoinSplit(s[|sep|..], sep);
      var rest := SplitOn(s[|sep|..], sep);
      assert SplitOn(s, sep) == [""] + rest;
      assert ([""] + rest)[1..] == rest;
      assert s == sep + s[|sep|..];
    } else {
      JoinSplit(s[1..], sep);
      var rest := SplitOn(s[1..], sep);
      JoinConsHead(s[0], rest, sep);
      assert s == [s[0]] + s[1..];
    }
  }

  /** Prefixing the first piece with a character prefixes the joined string with it. */
  lemma {:induction false} JoinConsHead(c: char, pieces: seq<string>, sep: string)
    requires |pieces| >= 1
    ensures Join([[c] + pieces[0]] + pieces[1..], sep) == [c] + Join(pieces, sep)
  {
    var q := [[c] + pieces[0]] + pieces[1..];
    assert q[1..] == pieces[1..];
  }

  /** Splitting is injective: equal piece lists come from equal strings. */
  lemma SplitInjective(s: string, t: string, sep: string)
    requires sep != ""
    requires SplitOn(s, sep) == SplitOn(t, sep)
    ensures s == t
  {
    JoinSplit(s, sep);
    JoinSplit(t, sep);
  }

  /** No piece of a split contains the separator. */
  lemma {:induction false} SplitPiecesFree(s: string, sep: string)
    requires sep != ""
    ensures forall k :: 0 <= k < |SplitOn(s, sep)| ==> !Contains(SplitOn(s, sep)[k], sep)
    decreases |s|
  {
    var pieces := SplitOn(s, sep);
    if s == [] {
      assert pieces == [""];
    } else if StartsWith(s, sep) {
      SplitPiecesFree(s[|sep|..], sep);
      var rest := SplitOn(s[|sep|..], sep);
      assert pieces == [""] + rest;
      forall k | 0 <= k < |pieces| ensures !Contains(pieces[k], sep) {
        if k > 0 { assert pieces[k] == rest[k - 1]; }
      }
    } else {
      SplitPiecesFree(s[1..], sep);
      var rest := SplitOn(s[1..], sep);
      var head := [s[0]] + rest[0];
      assert pieces == [head] + rest[1..];
      JoinSplit(s[1..], sep);
      HeadPieceFree(s, sep, rest);
      forall k | 0 <= k < |pieces| ensures !Contains(pieces[k], sep) {
        if k > 0 { assert pieces[k] == rest[k]; }
      }
    }
  }

  /** The first piece `s[0] + rest[0]` holds no separator: not at 0 (s does not start
      with one) and not later (rest[0] holds none). */
  lemma HeadPieceFree(s: string, sep: string, rest: seq<string>)
    requires sep != "" && s != [] && !StartsWith(s, sep)
    requires |rest| >= 1 && Join(rest, sep) == s[1..]
    requires !Contains(rest[0], sep)
    ensures !Contains([s[0]] + rest[0], sep)
  {
    var head := [s[0]] + rest[0];
    JoinPrefix(rest, sep);
    assert s == [s[0]] + s[1..];
    assert StartsWith(s, head);
    forall i | 0 <= i && i + |sep| <= |head| ensures !OccursAt(head, sep, i) {
      if i == 0 {
        assert head[..|sep|] == s[..|sep|];
      } else {
        assert head[i..i + |sep|] == rest[0][i - 1..i - 1 + |sep|];
        assert !OccursAt(rest[0], sep, i - 1);
      }
    }
  }

  /** The first piece is a prefix of the joined string. */
  lemma JoinPrefix(pieces: seq<string>, sep: string)
    requires |pieces| >= 1
    ensures StartsWith(Join(pieces, sep), pieces[0])
  {
  }

  /** A prefix of a string free of the separator is free of it too. */
  lemma PrefixFree(s: string, n: nat, sep: string)
    requires n <= |s| && !Contains(s, sep)
    ensures !Contains(s[..n], sep)
  {
    forall i | 0 <= i && i + |sep| <= n ensures !OccursAt(s[..n], sep, i) {
      assert s[..n][i..i + |sep|] == s[i..i + |sep|];
      assert !OccursAt(s, sep, i);
    }
  }

  /** The first piece of a split is a prefix of the string. */
  lemma {:induction false} FirstPieceIsPrefix(s: string, sep: string)
    requires sep != ""
    ensures StartsWith(s, SplitOn(s, sep)[0])
  {
    JoinSplit(s, sep);
    JoinPrefix(SplitOn(s, sep), sep);
  }

  /** A string without the separator is its own single piece. */
  lemma {:induction false} SplitWithoutSeparator(s: string, sep: string)
    requires sep != "" && !Contains(s, sep)
    ensures SplitOn(s, sep) == [s]
    decreases |s|
  {
    if s == [] {
    } else {
      if StartsWith(s, sep) {
        assert OccursAt(s, sep, 0);
      }
      forall i | 0 <= i && i + |sep| <= |s| - 1 ensures !OccursAt(s[1..], sep, i) {
        assert s[1..][i..i + |sep|] == s[i + 1..i + 1 + |sep|];
        assert !OccursAt(s, sep, i + 1);
      }
      SplitWithoutSeparator(s[1..], sep);
      assert s == [s[0]] + s[1..];
    }
  }

  /** For a one-character separator, containing it is containing the character. */
  lemma ContainsChar(s: string, c: char)
    ensures Contains(s, [c]) <==> c in s
  {
    if c in s {
      var i :| 0 <= i < |s| && s[i] == c;
      assert s[i..i + 1] == [c];
      assert OccursAt(s, [c], i);
    }
    if Contains(s, [c]) {
      var i :| OccursAt(s, [c], i);
      assert s[i] == s[i..i + 1][0];
    }
  }

  /** Splitting at a one-character separator placed between two strings splits each
      side separately. */
  lemma {:induction false} SplitAround(a: string, c: char, b: string)
    ensures SplitOn(a + [c] + b, [c]) == SplitOn(a, [c]) + SplitOn(b, [c])
    decreases |a|
  {
    var s := a + [c] + b;
    StartsWithChar(s, c);
    if a == [] {
      assert s[1..] == b;
    } else {
      assert s[1..] == a[1..] + [c] + b;
      SplitAround(a[1..], c, b);
      StartsWithChar(a, c);
      if a[0] == c {
        assert SplitOn(s, [c]) == [""] + SplitOn(s[1..], [c]);
      } else {
        var rest := SplitOn(s[1..], [c]);
        var left := SplitOn(a[1..], [c]);
        assert rest == left + SplitOn(b, [c]);
        assert rest[0] == left[0];
        assert rest[1..] == left[1..] + SplitOn(b, [c]);
      }
    }
  }

  /** The text before the last occurrence of a one-character separator, or the whole
      string when there is none: Python's `s.rsplit(c, 1)[0]`. */
  function BeforeLast(s: string, c: char): string {
    var pieces := SplitOn(s, [c]);
    if |pieces| == 1 then s else Join(pieces[..|pieces| - 1], [c])
  }

  /** Appending a separator and a separator-free suffix is undone by `BeforeLast`. */
  lemma BeforeLastOfAppended(a: string, c: char, suffix: string)
    requires c !in suffix
    ensures BeforeLast(a + [c] + suffix, c) == a
  {
    SplitAround(a, c, suffix);
    ContainsChar(suffix, c);
    SplitWithoutSeparator(suffix, [c]);
    var pieces := SplitOn(a + [c] + suffix, [c]);
    assert pieces == SplitOn(a, [c]) + [suffix];
    assert pieces[..|pieces| - 1] == SplitOn(a, [c]);
    JoinSplit(a, [c]);
  }

  /** The first piece of a split at a one-character separator is the text before
      its first occurrence. */
  lemma FirstPieceBefore(a: string, c: char, b: string)
    requires c !in a
    ensures SplitOn(a + [c] + b, [c])[0] == a
  {
    SplitAround(a, c, b);
    ContainsChar(a, c);
    SplitWithoutSeparator(a, [c]);
  }
}
