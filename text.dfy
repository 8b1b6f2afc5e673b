/** Strings as the analyser sees them: the character classes of JavaScript
    regular expressions, first-occurrence search (`indexOf`, `includes`),
    maximal runs of one character class, `trim` and `split('\n')`. */
module Text {

  datatype Option<T> = None | Some(value: T)

  function Min(a: int, b: int): int { if a <= b then a else b }

  /** `\w`: ASCII letters, digits and underscore. */
  predicate IsWordChar(c: char) {
    ('A' <= c <= 'Z') || ('a' <= c <= 'z') || ('0' <= c <= '9') || c == '_'
  }

  /** The characters that `.` does not match: line feed, carriage return,
      line separator and paragraph separator. */
  const LineTerminators: set<char> := {'\n', '\r', '\U{2028}', '\U{2029}'}

  predicate IsLineTerminator(c: char) {
    c in LineTerminators
  }

  /** `\s`, which is also the set of characters `trim` removes: the line
      terminators, tab, vertical tab, form feed, space, no-break space, the
      Unicode space separators U+1680, U+2000 to U+200A, U+202F, U+205F and
      U+3000, and the byte order mark U+FEFF. */
  predicate IsSpace(c: char) {
    c == ' ' || ('\t' <= c <= '\r') || ('\U{A0}' <= c && IsWideSpace(c))
  }

  predicate IsWideSpace(c: char) {
    c == '\U{A0}' || c == '\U{1680}' || ('\U{2000}' <= c <= '\U{200A}') || c == '\U{2028}' || c == '\U{2029}'
    || c == '\U{202F}' || c == '\U{205F}' || c == '\U{3000}' || c == '\U{FEFF}'
  }

  /** The three repeatable atoms of the analyser's patterns: `\w`, `\s` and `.`. */
  datatype CharClass = Word | Space | NotTerminator

  predicate InClass(c: char, cls: CharClass) {
    match cls
    case Word => IsWordChar(c)
    case Space => IsSpace(c)
    case NotTerminator => !IsLineTerminator(c)
  }

  /** Every character of `s[i..j]` belongs to `cls`. */
  predicate AllIn(s: string, i: int, j: int, cls: CharClass) {
    0 <= i <= j <= |s| && forall k {:trigger InClass(s[k], cls)} :: i <= k < j ==> InClass(s[k], cls)
  }

  /** Length of the longest run of `cls` characters starting at `i`. */
  function Run(s: string, i: nat, cls: CharClass): (n: nat)
    requires i <= |s|
    ensures i + n <= |s|
    decreases |s| - i
  {
    if i < |s| && InClass(s[i], cls) then 1 + Run(s, i + 1, cls) else 0
  }

  /** The run is all of `cls` and stops at the end or at a character
      outside `cls`. */
  lemma {:induction false} RunIsMaximal(s: string, i: nat, cls: CharClass)
    requires i <= |s|
    ensures AllIn(s, i, i + Run(s, i, cls), cls)
    ensures i + Run(s, i, cls) == |s| || !InClass(s[i + Run(s, i, cls)], cls)
    decreases |s| - i
  {
    if i < |s| && InClass(s[i], cls) {
      RunIsMaximal(s, i + 1, cls);
    }
  }

  /** A run of `cls` that ends before a character outside `cls` is the longest one. */
  lemma {:induction false} RunStopsAt(s: string, i: nat, e: int, cls: CharClass)
    requires AllIn(s, i, e, cls)
    requires e == |s| || !InClass(s[e], cls)
    ensures Run(s, i, cls) == e - i
    decreases e - i
  {
    if i < e {
      assert InClass(s[i], cls);
      RunStopsAt(s, i + 1, e, cls);
    }
  }

  /** `\s` and `\w` have no character in common. */
  lemma SpaceIsNotWord(c: char)
    requires IsSpace(c)
    ensures !IsWordChar(c)
  {
  }

  /** `s[p..]` starts with `pat`. */
  predicate HasAt(s: string, p: int, pat: string) {
    0 <= p && p + |pat| <= |s| && s[p..p + |pat|] == pat
  }

  /** `s.indexOf(pat, from)` for a non-empty `pat`: the first occurrence at or
      after `from`, or -1. */
  function IndexOfFrom(s: string, pat: string, from: nat): (r: int)
    requires |pat| > 0
    ensures r == -1 || (from <= r && HasAt(s, r, pat))
    ensures forall k :: from <= k && (r == -1 || k < r) ==> !HasAt(s, k, pat)
    decreases |s| - from
  {
    if from + |pat| > |s| then -1
    else if s[from..from + |pat|] == pat then from
    else IndexOfFrom(s, pat, from + 1)
  }

  /** `s.indexOf(pat)`. */
  function IndexOf(s: string, pat: string): (r: int)
    requires |pat| > 0
    ensures r == -1 || HasAt(s, r, pat)
    ensures forall k :: 0 <= k && (r == -1 || k < r) ==> !HasAt(s, k, pat)
  {
    IndexOfFrom(s, pat, 0)
  }

  /** `s.includes(pat)`. */
  function Contains(s: string, pat: string): (b: bool)
    requires |pat| > 0
    ensures b <==> exists k :: HasAt(s, k, pat)
  {
    IndexOf(s, pat) >= 0
  }

  /** `c` is the first character of an occurrence of `pat` in `s` and no
      occurrence starts earlier. */
  predicate FirstOccurrence(s: string, pat: string, c: int) {
    HasAt(s, c, pat) && forall k :: 0 <= k < c ==> !HasAt(s, k, pat)
  }

  /** The first occurrence is the one `indexOf` finds. */
  lemma FirstOccurrenceIsIndexOf(s: string, pat: string, c: int)
    requires |pat| > 0 && FirstOccurrence(s, pat, c)
    ensures IndexOf(s, pat) == c
  {
    var r := IndexOf(s, pat);
    assert r != -1 && !(r < c) by { assert HasAt(s, c, pat); }
  }

  /** Any index that is first at or after `from`, or -1 when there is none,
      is the one `indexOf` finds. */
  lemma IndexOfFromIs(s: string, pat: string, from: nat, c: int)
    requires |pat| > 0
    requires c == -1 || (from <= c && HasAt(s, c, pat))
    requires forall k :: from <= k && (c == -1 || k < c) ==> !HasAt(s, k, pat)
    ensures IndexOfFrom(s, pat, from) == c
  {
    var r := IndexOfFrom(s, pat, from);
    if r != -1 {
      assert HasAt(s, r, pat);
    }
  }

  /** Past the end of `p`, an occurrence in `p + s` is one in `s`. */
  lemma HasAtShift(p: string, s: string, q: int, pat: string)
    requires 0 <= q
    ensures HasAt(p + s, |p| + q, pat) <==> HasAt(s, q, pat)
  {
    if q + |pat| <= |s| {
      assert (p + s)[|p| + q..|p| + q + |pat|] == s[q..q + |pat|];
    }
  }

  /** Searching `p + s` from inside `s` finds what searching `s` finds,
      shifted by `|p|`. */
  lemma IndexOfFromShift(p: string, s: string, pat: string, j: nat)
    requires |pat| > 0
    ensures IndexOfFrom(p + s, pat, |p| + j) ==
            (var r := IndexOfFrom(s, pat, j); if r < 0 then -1 else |p| + r)
  {
    var r := IndexOfFrom(s, pat, j);
    var c := if r < 0 then -1 else |p| + r;
    if r >= 0 {
      HasAtShift(p, s, r, pat);
    }
    forall k | |p| + j <= k && (c == -1 || k < c)
      ensures !HasAt(p + s, k, pat)
    {
      HasAtShift(p, s, k - |p|, pat);
    }
    IndexOfFromIs(p + s, pat, |p| + j, c);
  }

  /** Searching a suffix is searching the whole string from where it starts. */
  lemma IndexOfSuffix(s: string, m: nat, pat: string)
    requires |pat| > 0 && m <= |s|
    ensures IndexOf(s[m..], pat) ==
            (var r := IndexOfFrom(s, pat, m); if r < 0 then -1 else r - m)
  {
    assert s[..m] + s[m..] == s;
    IndexOfFromShift(s[..m], s[m..], pat, 0);
  }

  /** A suffix of a string without `pat` has no `pat`. */
  lemma SuffixKeepsAbsent(s: string, m: nat, pat: string)
    requires |pat| > 0 && m <= |s| && !Contains(s, pat)
    ensures !Contains(s[m..], pat)
  {
    assert s[..m] + s[m..] == s;
    forall q | 0 <= q ensures !HasAt(s[m..], q, pat) {
      HasAtShift(s[..m], s[m..], q, pat);
    }
  }

  /** An occurrence inside a prefix is an occurrence in the whole string. */
  lemma HasAtPrefix(s: string, m: nat, k: int, pat: string)
    requires m <= |s| && HasAt(s[..m], k, pat)
    ensures HasAt(s, k, pat)
  {
    assert s[..m][k..k + |pat|] == s[k..k + |pat|];
  }

  /** A prefix of a string without `pat` has no `pat`. */
  lemma PrefixKeepsAbsent(s: string, m: nat, pat: string)
    requires |pat| > 0 && m <= |s| && !Contains(s, pat)
    ensures !Contains(s[..m], pat)
  {
    if Contains(s[..m], pat) {
      var k :| HasAt(s[..m], k, pat);
      HasAtPrefix(s, m, k, pat);
    }
  }

  /** The text before the first occurrence of `pat` does not contain `pat`. */
  lemma BeforeFirstIsFree(s: string, pat: string, b: int)
    requires |pat| > 0 && 0 <= b <= |s|
    requires forall k :: 0 <= k < b ==> !HasAt(s, k, pat)
    ensures !Contains(s[..b], pat)
  {
    if Contains(s[..b], pat) {
      var k :| HasAt(s[..b], k, pat);
      HasAtPrefix(s, b, k, pat);
    }
  }

  /** A one-character pattern occurs exactly where that character is. */
  lemma HasAtChar(s: string, k: int, c: char)
    requires 0 <= k < |s|
    ensures HasAt(s, k, [c]) <==> s[k] == c
  {
    assert s[k..k + 1] == [s[k]];
  }

  /** The largest index in `[lo, hi)` whose character is in `cs`, or -1. */
  function LastIn(s: string, lo: nat, hi: nat, cs: set<char>): (r: int)
    requires lo <= hi <= |s|
    ensures r == -1 || (lo <= r < hi && s[r] in cs)
    ensures forall k :: (if r == -1 then lo else r + 1) <= k < hi ==> s[k] !in cs
    decreases hi - lo
  {
    if hi == lo then -1
    else if s[hi - 1] in cs then hi - 1
    else LastIn(s, lo, hi - 1, cs)
  }

  /** `(s.match(/c/g) || []).length`: how many times `c` occurs in `s`. */
  function CountChar(s: string, c: char): (n: nat)
    ensures n == multiset(s)[c]
  {
    if s == [] then 0
    else
      assert s == [s[0]] + s[1..];
      (if s[0] == c then 1 else 0) + CountChar(s[1..], c)
  }

  /** `s` with its trailing whitespace removed. */
  function TrimEnd(s: string): (r: string)
    ensures |r| <= |s| && r == s[..|r|] && AllIn(s, |r|, |s|, Space)
    ensures r == [] || !IsSpace(r[|r| - 1])
  {
    if s != [] && IsSpace(s[|s| - 1]) then TrimEnd(s[..|s| - 1]) else s
  }

  /** `s.trim()`: the longest leading and trailing whitespace is removed. */
  function Trim(s: string): (r: string)
    ensures var a := Run(s, 0, Space);
            a + |r| <= |s| && r == s[a..a + |r|] && AllIn(s, a + |r|, |s|, Space)
    ensures r == [] || (!IsSpace(r[0]) && !IsSpace(r[|r| - 1]))
    ensures r == [] <==> AllIn(s, 0, |s|, Space)
  {
    var a := Run(s, 0, Space);
    RunIsMaximal(s, 0, Space);
    var r := TrimEnd(s[a..]);
    assert a < |s| ==> r != [];
    r
  }

  /** The pieces of `text.split('\n')` glued back together. */
  function JoinLines(lines: seq<string>): string {
    if |lines| == 0 then ""
    else if |lines| == 1 then lines[0]
    else lines[0] + "\n" + JoinLines(lines[1..])
  }

  /** `text.split('\n')`: never empty, no piece holds a newline, and joining
      the pieces with newlines gives the text back. */
  function SplitLines(text: string): (lines: seq<string>)
    ensures |lines| >= 1
    ensures forall k :: 0 <= k < |lines| ==> '\n' !in lines[k]
    ensures JoinLines(lines) == text
    decreases |text|
  {
    var k := IndexOf(text, "\n");
    if k < 0 then
      assert '\n' !in text by {
        forall j | 0 <= j < |text| ensures text[j] != '\n' { HasAtChar(text, j, '\n'); }
      }
      [text]
    else
      HasAtChar(text, k, '\n');
      assert text == text[..k] + "\n" + text[k + 1..];
      assert '\n' !in text[..k] by {
        forall j | 0 <= j < k ensures text[j] != '\n' { HasAtChar(text, j, '\n'); }
      }
      var rest := SplitLines(text[k + 1..]);
      assert ([text[..k]] + rest)[1..] == rest;
      [text[..k]] + rest
  }

  /** Splitting undoes joining: newline-free pieces come back unchanged. */
  lemma {:induction false} SplitJoin(lines: seq<string>)
    requires |lines| >= 1
    requires forall k :: 0 <= k < |lines| ==> '\n' !in lines[k]
    ensures SplitLines(JoinLines(lines)) == lines
  {
    var text := JoinLines(lines);
    var head := lines[0];
    if |lines| == 1 {
      assert forall j :: 0 <= j < |text| ==> !HasAt(text, j, "\n") by {
        forall j | 0 <= j < |text| ensures !HasAt(text, j, "\n") { HasAtChar(text, j, '\n'); }
      }
    } else {
      var rest := JoinLines(lines[1..]);
      assert text == head + "\n" + rest;
      forall j | 0 <= j < |head| ensures !HasAt(text, j, "\n") {
        assert text[j] == head[j];
        HasAtChar(text, j, '\n');
      }
      HasAtChar(text, |head|, '\n');
      assert IndexOf(text, "\n") == |head|;
      assert text[..|head|] == head;
      assert text[|head| + 1..] == rest;
      SplitJoin(lines[1..]);
      assert lines == [head] + lines[1..];
    }
  }
}
