/** The Python string operations the generator and the build handler rely
    on: `str.strip()`, `str.index`, `str.rindex`, `str.splitlines()` and
    `"\n".join(...)`, over strings as sequences of code points. */
module Text {
  import opened Common

  /** `str.isspace()` for one character: the characters Python strips with
      `strip()` when no argument is given. */
  predicate IsSpace(c: char)
  {
    || c == ' ' || c == '\t' || c == '\n' || c == '\r' || c == '\U{0B}' || c == '\U{0C}'
    || ('\U{1C}' <= c <= '\U{1F}') || c == '\U{85}' || c == '\U{A0}' || c == '\U{1680}'
    || ('\U{2000}' <= c <= '\U{200A}') || c == '\U{2028}' || c == '\U{2029}'
    || c == '\U{202F}' || c == '\U{205F}' || c == '\U{3000}'
  }

  /** `part` occurs in `s` starting at index `at`. */
  predicate InfixAt(part: string, s: string, at: nat)
  {
    at + |part| <= |s| && s[at..at + |part|] == part
  }

  // ---------------------------------------------------------------------
  // strip()
  // ---------------------------------------------------------------------

  /** Length of the run of whitespace at the front of s. */
  function LeadingSpaces(s: string): (n: nat)
    ensures n <= |s|
    ensures forall k :: 0 <= k < n ==> IsSpace(s[k])
    ensures n < |s| ==> !IsSpace(s[n])
    decreases |s|
  {
    if s == [] || !IsSpace(s[0]) then 0 else 1 + LeadingSpaces(s[1..])
  }

  /** Length of the run of whitespace at the back of s. */
  function TrailingSpaces(s: string): (n: nat)
    ensures n <= |s|
    ensures forall k :: |s| - n <= k < |s| ==> IsSpace(s[k])
    ensures n < |s| ==> !IsSpace(s[|s| - 1 - n])
    decreases |s|
  {
    if s == [] || !IsSpace(s[|s| - 1]) then 0 else 1 + TrailingSpaces(s[..|s| - 1])
  }

  /** `s.strip()`: s without its leading and trailing whitespace. The result
      is the infix of s that starts after the leading whitespace, neither of
      its ends is whitespace, and everything of s outside it is whitespace. */
  function Strip(s: string): (r: string)
    ensures InfixAt(r, s, LeadingSpaces(s))
    ensures |r| > 0 ==> !IsSpace(r[0]) && !IsSpace(r[|r| - 1])
    ensures forall k :: 0 <= k < |s| && !(LeadingSpaces(s) <= k < LeadingSpaces(s) + |r|) ==> IsSpace(s[k])
  {
    var lead := LeadingSpaces(s);
    var t := s[lead..];
    var trail := TrailingSpaces(t);
    var r := t[..|t| - trail];
    assert forall k :: lead + |r| <= k < |s| ==> IsSpace(s[k]) by {
      forall k | lead + |r| <= k < |s|
        ensures IsSpace(s[k])
      {
        assert s[k] == t[k - lead];
      }
    }
    r
  }

  /** Any infix with non-space ends whose outside is all whitespace is the
      stripped string: Strip is the only answer to its own description. */
  lemma StripUnique(s: string, r: string, at: nat)
    requires InfixAt(r, s, at)
    requires |r| > 0 ==> !IsSpace(r[0]) && !IsSpace(r[|r| - 1])
    requires forall k :: 0 <= k < |s| && !(at <= k < at + |r|) ==> IsSpace(s[k])
    requires |r| == 0 ==> at == |s|
    ensures r == Strip(s)
  {
    var q := Strip(s);
    var lead := LeadingSpaces(s);
    if |r| > 0 {
      assert s[at] == r[0];
      assert lead == at;
      assert s[at + |r| - 1] == r[|r| - 1];
      if |q| > 0 {
        assert s[lead + |q| - 1] == q[|q| - 1];
      }
    }
  }

  /** Stripping twice is stripping once. */
  lemma StripIdempotent(s: string)
    ensures Strip(Strip(s)) == Strip(s)
  {
    var r := Strip(s);
    if |r| > 0 {
      StripUnique(r, r, 0);
    }
  }

  // ---------------------------------------------------------------------
  // index / rindex (ValueError becomes None)
  // ---------------------------------------------------------------------

  /** `s.index(c)`: the first position of c, or None where Python raises. */
  function IndexOf(s: string, c: char): (r: Option<nat>)
    ensures r.None? <==> c !in s
    ensures r.Some? ==> r.value < |s| && s[r.value] == c && forall k :: 0 <= k < r.value ==> s[k] != c
    decreases |s|
  {
    if s == [] then None
    else if s[0] == c then Some(0)
    else
      match IndexOf(s[1..], c)
      case None => None
      case Some(i) => Some(i + 1)
  }

  /** `s.rindex(c)`: the last position of c, or None where Python raises. */
  function LastIndexOf(s: string, c: char): (r: Option<nat>)
    ensures r.None? <==> c !in s
    ensures r.Some? ==> r.value < |s| && s[r.value] == c && forall k :: r.value < k < |s| ==> s[k] != c
    decreases |s|
  {
    if s == [] then None
    else if s[|s| - 1] == c then Some(|s| - 1)
    else
      assert forall x :: x in s <==> x in s[..|s| - 1] || x == s[|s| - 1];
      LastIndexOf(s[..|s| - 1], c)
  }

  // ---------------------------------------------------------------------
  // splitlines() and join
  // ---------------------------------------------------------------------

  /** The line boundaries `str.splitlines()` recognises ("\r\n" counts as one). */
  predicate IsLineBreak(c: char)
  {
    || c == '\n' || c == '\r' || c == '\U{0B}' || c == '\U{0C}'
    || ('\U{1C}' <= c <= '\U{1E}') || c == '\U{85}' || c == '\U{2028}' || c == '\U{2029}'
  }

  /** Index of the first line boundary in s, or |s|. */
  function LineEnd(s: string): (k: nat)
    ensures k <= |s|
    ensures forall j :: 0 <= j < k ==> !IsLineBreak(s[j])
    ensures k < |s| ==> IsLineBreak(s[k])
    decreases |s|
  {
    if s == [] || IsLineBreak(s[0]) then 0 else 1 + LineEnd(s[1..])
  }

  /** `s.splitlines()`: the lines of s without their boundaries; a final
      boundary does not start an empty last line. */
  function SplitLines(s: string): (lines: seq<string>)
    ensures s == [] <==> lines == []
    ensures forall i, j :: 0 <= i < |lines| && 0 <= j < |lines[i]| ==> !IsLineBreak(lines[i][j])
    decreases |s|
  {
    if s == [] then []
    else
      var k := LineEnd(s);
      if k == |s| then [s]
      else
        [s[..k]] + SplitLines(s[AfterBreak(s, k)..])
  }

  /** Where the line after the boundary at k starts: "\r\n" is one boundary. */
  function AfterBreak(s: string, k: nat): (next: nat)
    requires k < |s|
    ensures k < next <= |s|
    ensures s[k] != '\r' ==> next == k + 1
  {
    if s[k] == '\r' && k + 1 < |s| && s[k + 1] == '\n' then k + 2 else k + 1
  }

  /** `sep.join(parts)`. */
  function Join(parts: seq<string>, sep: string): (r: string)
    ensures |parts| == 1 ==> r == parts[0]
    decreases |parts|
  {
    if parts == [] then ""
    else if |parts| == 1 then parts[0]
    else parts[0] + sep + Join(parts[1..], sep)
  }

  /** `xs[:n]`. */
  function Take<T>(xs: seq<T>, n: nat): (r: seq<T>)
    ensures |r| <= n && r <= xs
    ensures |xs| >= n ==> |r| == n
    ensures |xs| < n ==> r == xs
  {
    if |xs| <= n then xs else xs[..n]
  }

  /** The lines of texts joined with "\n" are those texts again, when none
      holds a line boundary and the last is not empty. */
  lemma {:induction false} SplitJoin(parts: seq<string>)
    requires forall i, j :: 0 <= i < |parts| && 0 <= j < |parts[i]| ==> !IsLineBreak(parts[i][j])
    requires parts != [] ==> parts[|parts| - 1] != []
    ensures SplitLines(Join(parts, "\n")) == parts
    decreases |parts|
  {
    if |parts| <= 1 {
      return;
    }
    var head, tail := parts[0], parts[1..];
    JoinCons(head, tail, "\n");
    assert parts == [head] + tail;
    SplitAtFirstLine(head, Join(tail, "\n"));
    SplitJoin(tail);
  }

  /** A first line without boundaries, "\n", and the rest split into that
      line and the lines of the rest. */
  lemma SplitAtFirstLine(head: string, rest: string)
    requires forall j :: 0 <= j < |head| ==> !IsLineBreak(head[j])
    ensures SplitLines(head + "\n" + rest) == [head] + SplitLines(rest)
  {
    var s := head + "\n" + rest;
    assert s[|head|] == '\n';
    assert forall j :: 0 <= j < |head| ==> s[j] == head[j];
    assert LineEnd(s) == |head|;
    SplitLinesAtNewline(s);
    assert s[..|head|] == head;
    assert s[|head| + 1..] == rest;
  }

  lemma JoinCons(head: string, tail: seq<string>, sep: string)
    requires tail != []
    ensures Join([head] + tail, sep) == head + sep + Join(tail, sep)
  {
    assert ([head] + tail)[1..] == tail;
  }

  /** When the first boundary of s is "\n", s splits into its first line
      and the lines of what follows that boundary. */
  lemma {:induction false} SplitLinesAtNewline(s: string)
    requires LineEnd(s) < |s| && s[LineEnd(s)] == '\n'
    ensures SplitLines(s) == [s[..LineEnd(s)]] + SplitLines(s[LineEnd(s) + 1..])
  {
    SplitLinesUnfold(s);
  }

  /** A text with a boundary splits into its first line and the lines after
      that boundary. */
  lemma SplitLinesUnfold(s: string)
    requires LineEnd(s) < |s|
    ensures SplitLines(s) == [s[..LineEnd(s)]] + SplitLines(s[AfterBreak(s, LineEnd(s))..])
  {
    assert s != [];
  }

  /** The first n lines joined: the first line alone, or the first line,
      a boundary, and the next n - 1 lines joined. */
  lemma JoinTakeCons(line: string, sr: seq<string>, n: nat)
    requires n > 0
    ensures n == 1 || sr == [] ==> Join(Take([line] + sr, n), "\n") == line
    ensures n > 1 && sr != [] ==> Join(Take([line] + sr, n), "\n") == line + "\n" + Join(Take(sr, n - 1), "\n")
  {
    var t := Take(sr, n - 1);
    if |sr| > n - 1 {
      assert ([line] + sr)[..n] == [line] + sr[..n - 1];
    }
    assert Take([line] + sr, n) == [line] + t;
    if t != [] {
      assert ([line] + t)[1..] == t;
    }
  }

  /** Splitting s at a boundary at k: s is the text before, the boundary,
      and the text after. */
  lemma SplitAround(s: string, k: nat)
    requires k < |s|
    ensures s == s[..k] + [s[k]] + s[k + 1..]
  {
  }

  /** A text broken by "\n" only has a tail broken by "\n" only. */
  lemma NewlinesOnlyInTail(s: string, k: nat)
    requires k <= |s|
    requires forall j :: 0 <= j < |s| && IsLineBreak(s[j]) ==> s[j] == '\n'
    ensures forall j :: 0 <= j < |s[k..]| && IsLineBreak(s[k..][j]) ==> s[k..][j] == '\n'
  {
    assert forall j :: 0 <= j < |s[k..]| ==> s[k..][j] == s[k + j];
  }

  lemma PrefixAfter(p: string, j: string, rest: string)
    requires j <= rest
    ensures p + j <= p + rest
  {
    assert (p + rest)[..|p| + |j|] == p + rest[..|j|];
  }

  /** When the only line boundary s uses is "\n", joining the first n of its
      lines with "\n" gives back a prefix of s. */
  lemma {:induction false} JoinedLinesArePrefix(s: string, n: nat)
    requires forall k :: 0 <= k < |s| && IsLineBreak(s[k]) ==> s[k] == '\n'
    ensures Join(Take(SplitLines(s), n), "\n") <= s
    decreases |s|
  {
    if s == [] || n == 0 {
      return;
    }
    var k := LineEnd(s);
    if k == |s| {
      assert SplitLines(s) == [s];
      return;
    }
    var line, rest := s[..k], s[k + 1..];
    var sr := SplitLines(rest);
    SplitLinesAtNewline(s);
    JoinTakeCons(line, sr, n);
    SplitAround(s, k);
    assert s == (line + "\n") + rest;
    if n > 1 && sr != [] {
      NewlinesOnlyInTail(s, k + 1);
      JoinedLinesArePrefix(rest, n - 1);
      PrefixAfter(line + "\n", Join(Take(sr, n - 1), "\n"), rest);
    }
  }

  /** When the only line boundary s uses is "\n" and s does not end with
      one, joining its lines with "\n" gives s back. */
  lemma {:induction false} JoinSplitLines(s: string)
    requires forall k :: 0 <= k < |s| && IsLineBreak(s[k]) ==> s[k] == '\n'
    requires s == [] || s[|s| - 1] != '\n'
    ensures Join(SplitLines(s), "\n") == s
    decreases |s|
  {
    if s == [] {
      return;
    }
    var k := LineEnd(s);
    if k == |s| {
      assert SplitLines(s) == [s];
      return;
    }
    var line, rest := s[..k], s[k + 1..];
    SplitLinesAtNewline(s);
    NewlinesOnlyInTail(s, k + 1);
    assert rest != [] && rest[|rest| - 1] == s[|s| - 1];
    JoinSplitLines(rest);
    var sr := SplitLines(rest);
    JoinCons(line, sr, "\n");
    SplitAround(s, k);
  }
}
