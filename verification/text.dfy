/** String helpers the point-of-sale code borrows from Python's `str`:
    `strip()`, `startswith`, the `in` substring test, and `replace`. */
module Text {

  /** Python's `str.isspace` for one character (the set `str.strip()` removes). */
  predicate IsWhitespace(c: char)
  {
    || c == ' ' || c == '\t' || c == '\n' || c == '\r' || c == '\U{0B}' || c == '\U{0C}'
    || ('\U{1C}' <= c <= '\U{1F}')
    || c == '\U{85}' || c == '\U{A0}' || c == '\U{1680}'
    || ('\U{2000}' <= c <= '\U{200A}')
    || c == '\U{2028}' || c == '\U{2029}' || c == '\U{202F}' || c == '\U{205F}' || c == '\U{3000}'
  }

  predicate AllWhitespace(s: string)
  {
    forall j :: 0 <= j < |s| ==> IsWhitespace(s[j])
  }

  /** Neither end of `s` is whitespace (vacuously true of the empty string). */
  predicate Trimmed(s: string)
  {
    |s| == 0 || (!IsWhitespace(s[0]) && !IsWhitespace(s[|s| - 1]))
  }

  /** Length of the longest all-whitespace prefix. */
  function LeadingSpace(s: string): (k: nat)
    ensures k <= |s|
    ensures AllWhitespace(s[..k])
    ensures k < |s| ==> !IsWhitespace(s[k])
  {
    if |s| == 0 || !IsWhitespace(s[0]) then 0
    else
      var k := LeadingSpace(s[1..]);
      assert s[1..][..k] == s[1..k + 1];
      1 + k
  }

  /** Length of the longest all-whitespace suffix. */
  function TrailingSpace(s: string): (k: nat)
    ensures k <= |s|
    ensures AllWhitespace(s[|s| - k..])
    ensures k < |s| ==> !IsWhitespace(s[|s| - k - 1])
  {
    if |s| == 0 || !IsWhitespace(s[|s| - 1]) then 0
    else
      var k := TrailingSpace(s[..|s| - 1]);
      assert s[..|s| - 1][|s| - 1 - k..] == s[|s| - 1 - k..|s| - 1];
      1 + k
  }

  /** Python's `s.strip()`: `s` with whitespace removed at both ends. */
  function Strip(s: string): (r: string)
    ensures Trimmed(r)
    ensures |r| == 0 <==> AllWhitespace(s)
    ensures StripsTo(s, LeadingSpace(s), r)
  {
    var lo := LeadingSpace(s);
    if lo == |s| then
      assert s[..lo] == s;
      []
    else
      var hi := |s| - TrailingSpace(s);
      SpacesDoNotMeet(s);
      TrimmedMiddle(s, lo, hi);
      s[lo..hi]
  }

  /** A slice whose surroundings are whitespace and whose end characters are
      not is a trimmed middle of the string. */
  lemma TrimmedMiddle(s: string, lo: int, hi: int)
    requires 0 <= lo < hi <= |s|
    requires AllWhitespace(s[..lo]) && AllWhitespace(s[hi..])
    requires !IsWhitespace(s[lo]) && !IsWhitespace(s[hi - 1])
    ensures Trimmed(s[lo..hi]) && StripsTo(s, lo, s[lo..hi])
  {
    var r := s[lo..hi];
    assert r[0] == s[lo] && r[|r| - 1] == s[hi - 1];
    assert s[lo + |r|..] == s[hi..];
  }

  /** When `s` is not all whitespace its leading and trailing runs leave a non-empty middle. */
  lemma SpacesDoNotMeet(s: string)
    requires LeadingSpace(s) < |s|
    ensures LeadingSpace(s) < |s| - TrailingSpace(s)
  {
  }

  /** `s` is `r` with the whitespace runs `s[..lo]` and `s[lo + |r|..]` around it. */
  predicate StripsTo(s: string, lo: int, r: string)
  {
    && 0 <= lo <= |s| - |r|
    && s[lo..lo + |r|] == r
    && AllWhitespace(s[..lo])
    && AllWhitespace(s[lo + |r|..])
  }

  /** The leading run ends at the first non-whitespace character. */
  lemma {:induction false} LeadingSpaceAt(s: string, n: nat)
    requires n < |s| && AllWhitespace(s[..n]) && !IsWhitespace(s[n])
    ensures LeadingSpace(s) == n
    decreases n
  {
    if n > 0 {
      assert IsWhitespace(s[..n][0]);
      assert s[1..][..n - 1] == s[1..n];
      LeadingSpaceAt(s[1..], n - 1);
    }
  }

  /** The trailing run starts after the last non-whitespace character. */
  lemma {:induction false} TrailingSpaceAt(s: string, n: nat)
    requires n < |s| && AllWhitespace(s[|s| - n..]) && !IsWhitespace(s[|s| - n - 1])
    ensures TrailingSpace(s) == n
    decreases n
  {
    if n > 0 {
      assert IsWhitespace(s[|s| - n..][n - 1]);
      var t := s[..|s| - 1];
      assert t[|t| - (n - 1)..] == s[|s| - n..|s| - 1];
      assert t[|t| - (n - 1) - 1] == s[|s| - n - 1];
      TrailingSpaceAt(t, n - 1);
    }
  }

  /** Strip is the only trimmed core of a string: any split of `s` into
      whitespace, a trimmed middle and whitespace is the one Strip finds. */
  lemma StripUnique(a: string, m: string, b: string)
    requires AllWhitespace(a) && AllWhitespace(b) && Trimmed(m) && |m| > 0
    ensures Strip(a + m + b) == m
  {
    var s := a + m + b;
    assert s[..|a|] == a;
    assert s[|a|] == m[0];
    LeadingSpaceAt(s, |a|);
    assert s[|s| - |b|..] == b;
    assert s[|s| - |b| - 1] == m[|m| - 1];
    TrailingSpaceAt(s, |b|);
    assert s[|a|..|s| - |b|] == m;
  }

  /** Stripping twice is stripping once. */
  lemma StripIdempotent(s: string)
    ensures Strip(Strip(s)) == Strip(s)
  {
    var r := Strip(s);
    if |r| > 0 {
      StripUnique([], r, []);
      assert [] + r + [] == r;
    }
  }

  predicate StartsWith(s: string, prefix: string)
  {
    |prefix| <= |s| && s[..|prefix|] == prefix
  }

  /** `s` begins with at least one of `prefixes` (Python's `any(s.startswith(p) for p in ...)`). */
  predicate StartsWithAny(s: string, prefixes: seq<string>)
  {
    exists i :: 0 <= i < |prefixes| && StartsWith(s, prefixes[i])
  }

  predicate OccursAt(s: string, pat: string, i: int)
  {
    0 <= i && i + |pat| <= |s| && s[i..i + |pat|] == pat
  }

  /** Python's `pat in s`. */
  predicate Contains(s: string, pat: string)
  {
    exists i :: 0 <= i <= |s| - |pat| && OccursAt(s, pat, i)
  }

  /** Python's `s.replace(pat, rep)`: every leftmost non-overlapping occurrence of `pat`, scanning left to right. */
  function ReplaceAll(s: string, pat: string, rep: string): string
    requires |pat| > 0
    decreases |s|
  {
    if |s| < |pat| then s
    else if s[..|pat|] == pat then rep + ReplaceAll(s[|pat|..], pat, rep)
    else [s[0]] + ReplaceAll(s[1..], pat, rep)
  }

  /** Python's `s.split(pat)`: the pieces between the occurrences ReplaceAll rewrites. */
  function Split(s: string, pat: string): (parts: seq<string>)
    requires |pat| > 0
    ensures |parts| >= 1
    decreases |s|
  {
    if |s| < |pat| then [s]
    else if s[..|pat|] == pat then [[]] + Split(s[|pat|..], pat)
    else
      var rest := Split(s[1..], pat);
      [[s[0]] + rest[0]] + rest[1..]
  }

  /** Python's `sep.join(parts)`. */
  function Join(parts: seq<string>, sep: string): string
    requires |parts| >= 1
  {
    if |parts| == 1 then parts[0] else parts[0] + sep + Join(parts[1..], sep)
  }

  /** Joining the pieces with `rep` is the replacement. */
  lemma {:induction false} SplitReplace(s: string, pat: string, rep: string)
    requires |pat| > 0
    ensures Join(Split(s, pat), rep) == ReplaceAll(s, pat, rep)
    decreases |s|
  {
    if |s| < |pat| {
    } else if s[..|pat|] == pat {
      SplitReplace(s[|pat|..], pat, rep);
      SplitReplaceAtMatch(s, pat, rep);
    } else {
      SplitReplace(s[1..], pat, rep);
      SplitReplacePastChar(s, pat, rep);
    }
  }

  /** An occurrence at the front opens an empty piece and becomes `rep`. */
  lemma SplitReplaceAtMatch(s: string, pat: string, rep: string)
    requires |pat| > 0 && |s| >= |pat| && s[..|pat|] == pat
    requires Join(Split(s[|pat|..], pat), rep) == ReplaceAll(s[|pat|..], pat, rep)
    ensures Join(Split(s, pat), rep) == ReplaceAll(s, pat, rep)
  {
    var rest := Split(s[|pat|..], pat);
    assert Split(s, pat) == [[]] + rest;
    JoinEmptyHead(rest, rep);
    assert ReplaceAll(s, pat, rep) == rep + ReplaceAll(s[|pat|..], pat, rep);
  }

  /** An empty first piece contributes only the separator after it. */
  lemma JoinEmptyHead(rest: seq<string>, sep: string)
    requires |rest| >= 1
    ensures Join([[]] + rest, sep) == sep + Join(rest, sep)
  {
    var parts := [[]] + rest;
    assert parts[0] == [] && parts[1..] == rest;
    JoinHead(parts, sep);
    assert [] + sep == sep;
  }

  /** A character that does not start an occurrence joins the first piece and is kept. */
  lemma SplitReplacePastChar(s: string, pat: string, rep: string)
    requires |pat| > 0 && |s| >= |pat| && s[..|pat|] != pat
    requires Join(Split(s[1..], pat), rep) == ReplaceAll(s[1..], pat, rep)
    ensures Join(Split(s, pat), rep) == ReplaceAll(s, pat, rep)
  {
    var rest := Split(s[1..], pat);
    assert Split(s, pat) == [[s[0]] + rest[0]] + rest[1..];
    JoinConsChar(s[0], rest, rep);
  }

  /** Putting a character in front of the first piece puts it in front of the join. */
  lemma JoinConsChar(c: char, rest: seq<string>, sep: string)
    requires |rest| >= 1
    ensures Join([[c] + rest[0]] + rest[1..], sep) == [c] + Join(rest, sep)
  {
    var parts := [[c] + rest[0]] + rest[1..];
    if |rest| > 1 {
      assert parts[1..] == rest[1..];
      JoinHead(rest, sep);
      JoinHead(parts, sep);
    }
  }

  /** Replacing a pattern by itself changes nothing. */
  lemma {:induction false} ReplaceSelf(s: string, pat: string)
    requires |pat| > 0
    ensures ReplaceAll(s, pat, pat) == s
    decreases |s|
  {
    if |s| < |pat| {
    } else if s[..|pat|] == pat {
      ReplaceSelf(s[|pat|..], pat);
      assert s == s[..|pat|] + s[|pat|..];
    } else {
      ReplaceSelf(s[1..], pat);
      assert s == [s[0]] + s[1..];
    }
  }

  /** The pieces are exactly what lies between the rewritten occurrences:
      joining them back with `pat` gives `s`, joining with `rep` gives the replacement,
      and no piece holds an occurrence of `pat` that the scan left behind. */
  lemma SplitJoin(s: string, pat: string, rep: string)
    requires |pat| > 0
    ensures Join(Split(s, pat), pat) == s
    ensures Join(Split(s, pat), rep) == ReplaceAll(s, pat, rep)
    ensures forall k :: 0 <= k < |Split(s, pat)| ==> !Contains(Split(s, pat)[k], pat)
  {
    SplitReplace(s, pat, rep);
    SplitReplace(s, pat, pat);
    ReplaceSelf(s, pat);
    SplitPiecesClean(s, pat);
  }

  /** No piece of a split contains the separator. */
  lemma {:induction false} SplitPiecesClean(s: string, pat: string)
    requires |pat| > 0
    ensures forall k :: 0 <= k < |Split(s, pat)| ==> !Contains(Split(s, pat)[k], pat)
    decreases |s|
  {
    var parts := Split(s, pat);
    if |s| < |pat| {
      assert !Contains(s, pat);
    } else if s[..|pat|] == pat {
      SplitPiecesClean(s[|pat|..], pat);
      var rest := Split(s[|pat|..], pat);
      assert !Contains([], pat);
      assert forall k :: 1 <= k < |parts| ==> parts[k] == rest[k - 1];
    } else {
      SplitPiecesClean(s[1..], pat);
      var rest := Split(s[1..], pat);
      FirstPieceIsPrefix(s[1..], pat);
      NoOccurrenceExtended(s, rest[0], pat);
      assert forall k :: 1 <= k < |parts| ==> parts[k] == rest[k];
    }
  }

  lemma JoinHead(parts: seq<string>, sep: string)
    requires |parts| >= 2
    ensures Join(parts, sep) == parts[0] + sep + Join(parts[1..], sep)
  {
  }

  /** The first piece of a split is a prefix of the string. */
  lemma {:induction false} FirstPieceIsPrefix(s: string, pat: string)
    requires |pat| > 0
    ensures |Split(s, pat)[0]| <= |s| && s[..|Split(s, pat)[0]|] == Split(s, pat)[0]
    decreases |s|
  {
    if |s| < |pat| {
    } else if s[..|pat|] == pat {
    } else {
      FirstPieceIsPrefix(s[1..], pat);
      SplitFirstPastChar(s, pat);
      PrefixCons(s, Split(s[1..], pat)[0]);
    }
  }

  /** A prefix of `s[1..]` behind `s[0]` is a prefix of `s`. */
  lemma PrefixCons(s: string, first: string)
    requires |first| < |s| && s[1..][..|first|] == first
    ensures s[..1 + |first|] == [s[0]] + first
  {
    assert s[..1 + |first|] == [s[0]] + s[1..][..|first|];
  }

  /** A character that does not start an occurrence is the head of the first piece. */
  lemma SplitFirstPastChar(s: string, pat: string)
    requires |pat| > 0 && |s| >= |pat| && s[..|pat|] != pat
    ensures Split(s, pat)[0] == [s[0]] + Split(s[1..], pat)[0]
  {
  }

  /** Prepending the first character of `s` to a pattern-free prefix of `s[1..]`
      cannot create an occurrence when `s` itself does not start with the pattern. */
  lemma NoOccurrenceExtended(s: string, piece: string, pat: string)
    requires |pat| > 0 && |s| >= |pat| && s[..|pat|] != pat
    requires |piece| <= |s| - 1 && s[1..][..|piece|] == piece
    requires !Contains(piece, pat)
    ensures !Contains([s[0]] + piece, pat)
  {
    var p := [s[0]] + piece;
    assert s[..|p|] == [s[0]] + s[1..][..|piece|];
    forall i | 0 <= i <= |p| - |pat|
      ensures !OccursAt(p, pat, i)
    {
      if i == 0 {
        assert p[..|pat|] == s[..|pat|];
      } else {
        assert p[i..i + |pat|] == piece[i - 1..i - 1 + |pat|];
        assert !OccursAt(piece, pat, i - 1);
      }
    }
  }

  /** Replacing a pattern that does not occur leaves the string as it is. */
  lemma {:induction false} ReplaceAbsent(s: string, pat: string, rep: string)
    requires |pat| > 0 && !Contains(s, pat)
    ensures ReplaceAll(s, pat, rep) == s
    decreases |s|
  {
    if |s| >= |pat| {
      assert !OccursAt(s, pat, 0);
      assert s[..|pat|] != pat by { assert s[0..|pat|] == s[..|pat|]; }
      forall i | 0 <= i <= |s[1..]| - |pat|
        ensures !OccursAt(s[1..], pat, i)
      {
        assert s[1..][i..i + |pat|] == s[i + 1..i + 1 + |pat|];
        assert !OccursAt(s, pat, i + 1);
      }
      ReplaceAbsent(s[1..], pat, rep);
      assert s == [s[0]] + s[1..];
    }
  }

  /** An occurrence of `pat` carries every piece of `pat` with it. */
  lemma ContainsPiece(s: string, pat: string, off: nat, piece: string)
    requires off + |piece| <= |pat| && pat[off..off + |piece|] == piece
    requires Contains(s, pat)
    ensures Contains(s, piece)
  {
    var i :| 0 <= i <= |s| - |pat| && OccursAt(s, pat, i);
    forall j | 0 <= j < |piece|
      ensures s[i + off + j] == piece[j]
    {
      assert s[i + off + j] == s[i..i + |pat|][off + j];
      assert pat[off..off + |piece|][j] == pat[off + j];
    }
    assert s[i + off..i + off + |piece|] == piece;
    assert OccursAt(s, piece, i + off);
  }
}
