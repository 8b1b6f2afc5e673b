/** The ten regular expressions of the analyser, each hand-written over
    `seq<char>` with JavaScript semantics: `MatchAt` gives the length of the
    match the backtracking engine finds when it starts at a position, `Spans`
    is the language the pattern denotes, and `Find` is the leftmost match
    (`match(...)[0]`, `exec`). The lemmas show that `MatchAt` returns the
    longest span and `Find` the leftmost-longest one. */
module Patterns {
  import opened Text

  datatype Pattern =
    | NewWord        // \bnew\s+\w+
    | DeleteWord     // \bdelete\s+\w+
    | MallocCall     // \bmalloc\s*\(
    | ListType       // std::list<.*>
    | MapType        // std::map<.*>
    | PushBackCall   // \.push_back\s*\(
    | ConcatLiteral  // \w+\s*\+=\s*["'].*["']
    | StringParam    // \bstd::string\s+\w+\s*\)
    | CompareCall    // \w+\.compare\s*\(
    | LoopHead       // \b(for|while)\s*\(

  /** A match: where it starts and how many characters it covers. */
  datatype Match = Match(index: nat, length: nat)

  const Quotes: set<char> := {'"', '\''}

  /** `\b` in front of a pattern whose first character is a word character. */
  predicate NoWordBefore(s: string, p: int) {
    p == 0 || (0 < p <= |s| && !IsWordChar(s[p - 1]))
  }

  function Plus(k: nat, r: Option<nat>): Option<nat> {
    match r
    case None => None
    case Some(n) => Some(k + n)
  }

  // ---------------------------------------------------------------------------
  // The languages: `s[i..j]` (or `s[p..p + n]`) is exactly one match of a piece

  /** `\s*c`. */
  predicate SpacesThenSpan(s: string, i: int, j: int, close: char) {
    0 <= i < j <= |s| && AllIn(s, i, j - 1, Space) && s[j - 1] == close
  }

  /** `.*` then one character of `cs`. */
  predicate AnyThenSpan(s: string, i: int, j: int, cs: set<char>) {
    0 <= i < j <= |s| && AllIn(s, i, j - 1, NotTerminator) && s[j - 1] in cs
  }

  /** `\s+\w+`. */
  ghost predicate SpacesWordSpan(s: string, i: int, j: int) {
    exists e :: i < e < j && AllIn(s, i, e, Space) && AllIn(s, e, j, Word)
  }

  /** `\s*["'].*["']`. */
  ghost predicate QuotedSpan(s: string, i: int, j: int) {
    exists q :: AllIn(s, i, q, Space) && q < |s| && s[q] in Quotes && AnyThenSpan(s, q + 1, j, Quotes)
  }

  /** `\s*\+=\s*["'].*["']`. */
  ghost predicate PlusEqualsSpan(s: string, i: int, j: int) {
    exists e :: AllIn(s, i, e, Space) && HasAt(s, e, "+=") && QuotedSpan(s, e + 2, j)
  }

  /** `\s+\w+\s*\)`. */
  ghost predicate ParamNameSpan(s: string, i: int, j: int) {
    exists e :: SpacesWordSpan(s, i, e) && SpacesThenSpan(s, e, j, ')')
  }

  /** `\bkw\s+\w+`. */
  ghost predicate KeywordWordSpan(s: string, p: nat, n: nat, kw: string) {
    NoWordBefore(s, p) && HasAt(s, p, kw) && SpacesWordSpan(s, p + |kw|, p + n)
  }

  /** `\bkw\s*\(`. */
  predicate KeywordCallSpan(s: string, p: nat, n: nat, kw: string) {
    NoWordBefore(s, p) && HasAt(s, p, kw) && SpacesThenSpan(s, p + |kw|, p + n, '(')
  }

  /** `open.*>`. */
  predicate ContainerSpan(s: string, p: nat, n: nat, open: string) {
    HasAt(s, p, open) && AnyThenSpan(s, p + |open|, p + n, {'>'})
  }

  /** `\w+\s*\+=\s*["'].*["']`. */
  ghost predicate ConcatSpan(s: string, p: nat, n: nat) {
    exists e :: p < e && AllIn(s, p, e, Word) && PlusEqualsSpan(s, e, p + n)
  }

  /** `\bstd::string\s+\w+\s*\)`. */
  ghost predicate StringParamSpan(s: string, p: nat, n: nat) {
    NoWordBefore(s, p) && HasAt(s, p, "std::string") && ParamNameSpan(s, p + 11, p + n)
  }

  /** `\w+\.compare\s*\(`. */
  ghost predicate CompareSpan(s: string, p: nat, n: nat) {
    exists e :: p < e && AllIn(s, p, e, Word) && HasAt(s, e, ".compare") && SpacesThenSpan(s, e + 8, p + n, '(')
  }

  /** `s[p..p + n]` is a match of `pat` at `p` (with the `\b` context before `p`). */
  ghost predicate Spans(pat: Pattern, s: string, p: nat, n: nat) {
    match pat
    case NewWord => KeywordWordSpan(s, p, n, "new")
    case DeleteWord => KeywordWordSpan(s, p, n, "delete")
    case MallocCall => KeywordCallSpan(s, p, n, "malloc")
    case ListType => ContainerSpan(s, p, n, "std::list<")
    case MapType => ContainerSpan(s, p, n, "std::map<")
    case PushBackCall => HasAt(s, p, ".push_back") && SpacesThenSpan(s, p + 10, p + n, '(')
    case ConcatLiteral => ConcatSpan(s, p, n)
    case StringParam => StringParamSpan(s, p, n)
    case CompareCall => CompareSpan(s, p, n)
    case LoopHead => KeywordCallSpan(s, p, n, "for") || KeywordCallSpan(s, p, n, "while")
  }

  /** Some match of `pat` occurs somewhere in `s`. */
  ghost predicate Occurs(pat: Pattern, s: string) {
    exists p: nat, n: nat :: Spans(pat, s, p, n)
  }

  // ---------------------------------------------------------------------------
  // The matchers: the length of the match the backtracking engine finds at a
  // position. Every `\w+` and `\s+` / `\s*` here is followed by a character
  // outside its class, so backtracking into it never helps and the greedy run
  // is the only choice; only `.*` backs off, to the last closing character.

  /** `\s*c` at `i`. */
  function SpacesThen(s: string, i: nat, close: char): (r: Option<nat>)
    requires i <= |s|
    ensures r.Some? ==> 0 < r.value && i + r.value <= |s|
  {
    var a := Run(s, i, Space);
    if i + a < |s| && s[i + a] == close then Some(a + 1) else None
  }

  /** `.*` then one of `cs` at `i`: the last such character before the end of the line. */
  function AnyThen(s: string, i: nat, cs: set<char>): (r: Option<nat>)
    requires i <= |s|
    ensures r.Some? ==> 0 < r.value && i + r.value <= |s|
  {
    var k := LastIn(s, i, i + Run(s, i, NotTerminator), cs);
    if k < 0 then None else Some(k + 1 - i)
  }

  /** `\s+\w+` at `i`. */
  function SpacesWord(s: string, i: nat): (r: Option<nat>)
    requires i <= |s|
    ensures r.Some? ==> 0 < r.value && i + r.value <= |s|
  {
    var a := Run(s, i, Space);
    if a > 0 && i + a < |s| && IsWordChar(s[i + a]) then Some(a + Run(s, i + a, Word)) else None
  }

  /** `\s*["'].*["']` at `i`. */
  function Quoted(s: string, i: nat): (r: Option<nat>)
    requires i <= |s|
    ensures r.Some? ==> 0 < r.value && i + r.value <= |s|
  {
    var q := i + Run(s, i, Space);
    if q < |s| && s[q] in Quotes then Plus(q + 1 - i, AnyThen(s, q + 1, Quotes)) else None
  }

  /** `\s*\+=\s*["'].*["']` at `i`. */
  function PlusEquals(s: string, i: nat): (r: Option<nat>)
    requires i <= |s|
    ensures r.Some? ==> 0 < r.value && i + r.value <= |s|
  {
    var e := i + Run(s, i, Space);
    if HasAt(s, e, "+=") then Plus(e + 2 - i, Quoted(s, e + 2)) else None
  }

  /** `\s+\w+\s*\)` at `i`. */
  function ParamName(s: string, i: nat): (r: Option<nat>)
    requires i <= |s|
    ensures r.Some? ==> 0 < r.value && i + r.value <= |s|
  {
    match SpacesWord(s, i)
    case None => None
    case Some(a) => Plus(a, SpacesThen(s, i + a, ')'))
  }

  function KeywordWord(s: string, p: nat, kw: string): (r: Option<nat>)
    requires p <= |s|
    ensures r.Some? ==> 0 < r.value && p + r.value <= |s|
  {
    if NoWordBefore(s, p) && HasAt(s, p, kw) then Plus(|kw|, SpacesWord(s, p + |kw|)) else None
  }

  function KeywordCall(s: string, p: nat, kw: string): (r: Option<nat>)
    requires p <= |s|
    ensures r.Some? ==> 0 < r.value && p + r.value <= |s|
  {
    if NoWordBefore(s, p) && HasAt(s, p, kw) then Plus(|kw|, SpacesThen(s, p + |kw|, '(')) else None
  }

  function Container(s: string, p: nat, open: string): (r: Option<nat>)
    requires p <= |s|
    ensures r.Some? ==> 0 < r.value && p + r.value <= |s|
  {
    if HasAt(s, p, open) then Plus(|open|, AnyThen(s, p + |open|, {'>'})) else None
  }

  function ConcatAt(s: string, p: nat): (r: Option<nat>)
    requires p <= |s|
    ensures r.Some? ==> 0 < r.value && p + r.value <= |s|
  {
    if p < |s| && IsWordChar(s[p]) then
      var e := p + Run(s, p, Word);
      Plus(e - p, PlusEquals(s, e))
    else None
  }

  function StringParamAt(s: string, p: nat): (r: Option<nat>)
    requires p <= |s|
    ensures r.Some? ==> 0 < r.value && p + r.value <= |s|
  {
    if NoWordBefore(s, p) && HasAt(s, p, "std::string") then Plus(11, ParamName(s, p + 11)) else None
  }

  function CompareAt(s: string, p: nat): (r: Option<nat>)
    requires p <= |s|
    ensures r.Some? ==> 0 < r.value && p + r.value <= |s|
  {
    if p < |s| && IsWordChar(s[p]) then
      var e := p + Run(s, p, Word);
      if HasAt(s, e, ".compare") then Plus(e + 8 - p, SpacesThen(s, e + 8, '(')) else None
    else None
  }

  function PushBackAt(s: string, p: nat): (r: Option<nat>)
    requires p <= |s|
    ensures r.Some? ==> 0 < r.value && p + r.value <= |s|
  {
    if HasAt(s, p, ".push_back") then Plus(10, SpacesThen(s, p + 10, '(')) else None
  }

  /** `\b(for|while)\s*\(` at `p`. */
  function LoopHeadAt(s: string, p: nat): (r: Option<nat>)
    requires p <= |s|
    ensures r.Some? ==> 0 < r.value && p + r.value <= |s|
  {
    var k := LoopKeywordLength(s, p);
    if k > 0 && NoWordBefore(s, p) then Plus(k, SpacesThen(s, p + k, '(')) else None
  }

  /** The length of the match of `pat` that starts at `p`, if there is one. */
  function MatchAt(pat: Pattern, s: string, p: nat): (r: Option<nat>)
    ensures r.Some? ==> 0 < r.value && p + r.value <= |s|
  {
    if p > |s| then None
    else
      match pat
      case NewWord => KeywordWord(s, p, "new")
      case DeleteWord => KeywordWord(s, p, "delete")
      case MallocCall => KeywordCall(s, p, "malloc")
      case ListType => Container(s, p, "std::list<")
      case MapType => Container(s, p, "std::map<")
      case PushBackCall => PushBackAt(s, p)
      case ConcatLiteral => ConcatAt(s, p)
      case StringParam => StringParamAt(s, p)
      case CompareCall => CompareAt(s, p)
      case LoopHead => LoopHeadAt(s, p)
  }

  // ---------------------------------------------------------------------------
  // Every match is a span

  lemma SpacesThenSound(s: string, i: nat, close: char)
    requires i <= |s| && SpacesThen(s, i, close).Some?
    ensures SpacesThenSpan(s, i, i + SpacesThen(s, i, close).value, close)
  {
    RunIsMaximal(s, i, Space);
  }

  lemma AnyThenSound(s: string, i: nat, cs: set<char>)
    requires i <= |s| && AnyThen(s, i, cs).Some?
    ensures AnyThenSpan(s, i, i + AnyThen(s, i, cs).value, cs)
  {
    RunIsMaximal(s, i, NotTerminator);
  }

  lemma SpacesWordSound(s: string, i: nat)
    requires i <= |s| && SpacesWord(s, i).Some?
    ensures SpacesWordSpan(s, i, i + SpacesWord(s, i).value)
  {
    var a := Run(s, i, Space);
    RunIsMaximal(s, i, Space);
    RunIsMaximal(s, i + a, Word);
    assert InClass(s[i + a], Word);
    assert AllIn(s, i, i + a, Space) && AllIn(s, i + a, i + SpacesWord(s, i).value, Word);
  }

  lemma QuotedSound(s: string, i: nat)
    requires i <= |s| && Quoted(s, i).Some?
    ensures QuotedSpan(s, i, i + Quoted(s, i).value)
  {
    var q := i + Run(s, i, Space);
    RunIsMaximal(s, i, Space);
    AnyThenSound(s, q + 1, Quotes);
    assert AllIn(s, i, q, Space);
  }

  lemma PlusEqualsSound(s: string, i: nat)
    requires i <= |s| && PlusEquals(s, i).Some?
    ensures PlusEqualsSpan(s, i, i + PlusEquals(s, i).value)
  {
    var e := i + Run(s, i, Space);
    RunIsMaximal(s, i, Space);
    QuotedSound(s, e + 2);
    assert AllIn(s, i, e, Space);
  }

  lemma ParamNameSound(s: string, i: nat)
    requires i <= |s| && ParamName(s, i).Some?
    ensures ParamNameSpan(s, i, i + ParamName(s, i).value)
  {
    var a := SpacesWord(s, i).value;
    SpacesWordSound(s, i);
    SpacesThenSound(s, i + a, ')');
    assert SpacesWordSpan(s, i, i + a);
  }

  lemma KeywordWordSound(s: string, p: nat, kw: string)
    requires p <= |s| && KeywordWord(s, p, kw).Some?
    ensures KeywordWordSpan(s, p, KeywordWord(s, p, kw).value, kw)
  {
    SpacesWordSound(s, p + |kw|);
  }

  lemma KeywordCallSound(s: string, p: nat, kw: string)
    requires p <= |s| && KeywordCall(s, p, kw).Some?
    ensures KeywordCallSpan(s, p, KeywordCall(s, p, kw).value, kw)
  {
    SpacesThenSound(s, p + |kw|, '(');
  }

  lemma ContainerSound(s: string, p: nat, open: string)
    requires p <= |s| && Container(s, p, open).Some?
    ensures ContainerSpan(s, p, Container(s, p, open).value, open)
  {
    AnyThenSound(s, p + |open|, {'>'});
  }

  lemma ConcatSound(s: string, p: nat)
    requires p <= |s| && ConcatAt(s, p).Some?
    ensures ConcatSpan(s, p, ConcatAt(s, p).value)
  {
    var e := p + Run(s, p, Word);
    RunIsMaximal(s, p, Word);
    assert InClass(s[p], Word);
    ConcatAtWord(s, p, e);
    PlusEqualsSound(s, e);
    ConcatSpanIntro(s, p, e, ConcatAt(s, p).value);
  }

  lemma ConcatSpanIntro(s: string, p: nat, e: int, n: nat)
    requires p < e && AllIn(s, p, e, Word) && PlusEqualsSpan(s, e, p + n)
    ensures ConcatSpan(s, p, n)
  {
  }

  lemma StringParamSound(s: string, p: nat)
    requires p <= |s| && StringParamAt(s, p).Some?
    ensures StringParamSpan(s, p, StringParamAt(s, p).value)
  {
    ParamNameSound(s, p + 11);
  }

  lemma CompareSound(s: string, p: nat)
    requires p <= |s| && CompareAt(s, p).Some?
    ensures CompareSpan(s, p, CompareAt(s, p).value)
  {
    var e := p + Run(s, p, Word);
    RunIsMaximal(s, p, Word);
    assert InClass(s[p], Word);
    CompareAtWord(s, p, e);
    SpacesThenSound(s, e + 8, '(');
    CompareSpanIntro(s, p, e, CompareAt(s, p).value);
  }

  lemma CompareSpanIntro(s: string, p: nat, e: int, n: nat)
    requires p < e && AllIn(s, p, e, Word) && HasAt(s, e, ".compare") && SpacesThenSpan(s, e + 8, p + n, '(')
    ensures CompareSpan(s, p, n)
  {
  }

  lemma LoopHeadSound(s: string, p: nat)
    requires p <= |s| && LoopHeadAt(s, p).Some?
    ensures KeywordCallSpan(s, p, LoopHeadAt(s, p).value, "for") || KeywordCallSpan(s, p, LoopHeadAt(s, p).value, "while")
  {
    LoopKeywordIsFor(s, p);
    LoopKeywordIsWhile(s, p);
    SpacesThenSound(s, p + LoopKeywordLength(s, p), '(');
  }

  /** What `MatchAt` finds is a span of the pattern. */
  lemma MatchAtSpans(pat: Pattern, s: string, p: nat)
    requires MatchAt(pat, s, p).Some?
    ensures Spans(pat, s, p, MatchAt(pat, s, p).value)
  {
    match pat
    case NewWord => KeywordWordSound(s, p, "new");
    case DeleteWord => KeywordWordSound(s, p, "delete");
    case MallocCall => KeywordCallSound(s, p, "malloc");
    case ListType => ContainerSound(s, p, "std::list<");
    case MapType => ContainerSound(s, p, "std::map<");
    case PushBackCall => SpacesThenSound(s, p + 10, '(');
    case ConcatLiteral => ConcatSound(s, p);
    case StringParam => StringParamSound(s, p);
    case CompareCall => CompareSound(s, p);
    case LoopHead => LoopHeadSound(s, p);
  }

  /** The length of the keyword of `(for|while)` at `p`, or 0: the
      alternation tries `for` first, and `while` cannot start where `for`
      does. */
  function LoopKeywordLength(s: string, p: nat): (k: nat)
    ensures k == 0 || k == 3 || k == 5
  {
    if p + 3 <= |s| && s[p] == 'f' && s[p + 1] == 'o' && s[p + 2] == 'r' then 3
    else if p + 5 <= |s| && s[p] == 'w' && s[p + 1] == 'h' && s[p + 2] == 'i' && s[p + 3] == 'l' && s[p + 4] == 'e' then 5
    else 0
  }

  lemma LoopKeywordIsFor(s: string, p: nat)
    ensures LoopKeywordLength(s, p) == 3 <==> HasAt(s, p, "for")
  {
    if HasAt(s, p, "for") {
      assert s[p..p + 3][0] == s[p] && s[p..p + 3][1] == s[p + 1] && s[p..p + 3][2] == s[p + 2];
    }
    if LoopKeywordLength(s, p) == 3 {
      assert s[p..p + 3] == "for";
    }
  }

  lemma LoopKeywordIsWhile(s: string, p: nat)
    ensures LoopKeywordLength(s, p) == 5 <==> HasAt(s, p, "while")
  {
    KeywordsDiffer(s, p);
    if HasAt(s, p, "while") {
      var w := s[p..p + 5];
      assert w[0] == s[p] && w[1] == s[p + 1] && w[2] == s[p + 2] && w[3] == s[p + 3] && w[4] == s[p + 4];
    }
    if LoopKeywordLength(s, p) == 5 {
      assert s[p..p + 5] == "while";
    }
  }

  lemma KeywordsDiffer(s: string, p: nat)
    ensures !(HasAt(s, p, "for") && HasAt(s, p, "while"))
  {
    if HasAt(s, p, "while") {
      WhileIsNotFor(s, p);
    }
  }

  // ---------------------------------------------------------------------------
  // Every span is found, and the greedy match is the longest one

  lemma SpacesThenFinds(s: string, i: nat, j: int, close: char)
    requires SpacesThenSpan(s, i, j, close) && !IsSpace(close)
    ensures SpacesThen(s, i, close) == Some(j - i)
  {
    RunStopsAt(s, i, j - 1, Space);
  }

  lemma AnyThenFinds(s: string, i: nat, j: int, cs: set<char>)
    requires AnyThenSpan(s, i, j, cs)
    requires forall c :: c in cs ==> !IsLineTerminator(c)
    ensures AnyThen(s, i, cs).Some? && j - i <= AnyThen(s, i, cs).value
  {
    assert AllIn(s, i, j, NotTerminator) by {
      assert InClass(s[j - 1], NotTerminator);
    }
    RunIsMaximal(s, i, NotTerminator);
    var end := i + Run(s, i, NotTerminator);
    assert j <= end;
  }

  /** `\s+\w+` is found, at least as long; exactly as long when no word
      character follows the span. */
  lemma SpacesWordFinds(s: string, i: nat, j: int)
    requires SpacesWordSpan(s, i, j)
    ensures SpacesWord(s, i).Some? && j - i <= SpacesWord(s, i).value
    ensures j < |s| && !IsWordChar(s[j]) ==> SpacesWord(s, i) == Some(j - i)
  {
    var e :| i < e < j && AllIn(s, i, e, Space) && AllIn(s, e, j, Word);
    assert InClass(s[e], Word);
    RunStopsAt(s, i, e, Space);
    RunIsMaximal(s, e, Word);
    if j < |s| && !IsWordChar(s[j]) {
      RunStopsAt(s, e, j, Word);
    }
  }

  lemma QuotedFinds(s: string, i: nat, j: int)
    requires QuotedSpan(s, i, j)
    ensures Quoted(s, i).Some? && j - i <= Quoted(s, i).value
  {
    var q :| AllIn(s, i, q, Space) && q < |s| && s[q] in Quotes && AnyThenSpan(s, q + 1, j, Quotes);
    QuotedFindsAt(s, i, j, q);
  }

  lemma QuotedFindsAt(s: string, i: nat, j: int, q: nat)
    requires AllIn(s, i, q, Space) && q < |s| && s[q] in Quotes && AnyThenSpan(s, q + 1, j, Quotes)
    ensures Quoted(s, i).Some? && j - i <= Quoted(s, i).value
  {
    RunStopsAt(s, i, q, Space);
    AnyThenFinds(s, q + 1, j, Quotes);
  }

  lemma PlusEqualsFinds(s: string, i: nat, j: int)
    requires PlusEqualsSpan(s, i, j)
    ensures PlusEquals(s, i).Some? && j - i <= PlusEquals(s, i).value
  {
    var e :| AllIn(s, i, e, Space) && HasAt(s, e, "+=") && QuotedSpan(s, e + 2, j);
    assert s[e] == '+' by { assert s[e..e + 2][0] == s[e]; }
    RunStopsAt(s, i, e, Space);
    QuotedFinds(s, e + 2, j);
  }

  lemma ParamNameFinds(s: string, i: nat, j: int)
    requires ParamNameSpan(s, i, j)
    ensures ParamName(s, i) == Some(j - i)
  {
    var e :| SpacesWordSpan(s, i, e) && SpacesThenSpan(s, e, j, ')');
    if e < j - 1 {
      assert InClass(s[e], Space);
      SpaceIsNotWord(s[e]);
    }
    SpacesWordFinds(s, i, e);
    SpacesThenFinds(s, e, j, ')');
  }

  lemma ConcatFinds(s: string, p: nat, n: nat)
    requires ConcatSpan(s, p, n)
    ensures ConcatAt(s, p).Some? && n <= ConcatAt(s, p).value
  {
    var e :| p < e && AllIn(s, p, e, Word) && PlusEqualsSpan(s, e, p + n);
    PlusEqualsStartsOffWord(s, e, p + n);
    ConcatFindsAt(s, p, n, e);
  }

  lemma ConcatFindsAt(s: string, p: nat, n: nat, e: nat)
    requires p < e && AllIn(s, p, e, Word) && PlusEqualsSpan(s, e, p + n)
    requires e < |s| && !IsWordChar(s[e])
    ensures ConcatAt(s, p).Some? && n <= ConcatAt(s, p).value
  {
    assert InClass(s[p], Word);
    RunStopsAt(s, p, e, Word);
    PlusEqualsFinds(s, e, p + n);
    ConcatAtWord(s, p, e);
  }

  /** `\s*\+=` starts with a space or a `+`, neither of them a word character. */
  lemma PlusEqualsStartsOffWord(s: string, i: nat, j: int)
    requires PlusEqualsSpan(s, i, j)
    ensures i < |s| && !IsWordChar(s[i])
  {
    var e :| AllIn(s, i, e, Space) && HasAt(s, e, "+=") && QuotedSpan(s, e + 2, j);
    assert s[e] == '+' by { assert s[e..e + 2][0] == s[e]; }
    if i < e {
      assert InClass(s[i], Space);
      SpaceIsNotWord(s[i]);
    }
  }

  /** A word run of `\w+` that ends at `e` hands over to `\s*\+=` at `e`. */
  lemma ConcatAtWord(s: string, p: nat, e: nat)
    requires p < |s| && IsWordChar(s[p]) && e <= |s| && Run(s, p, Word) == e - p
    ensures ConcatAt(s, p) == Plus(e - p, PlusEquals(s, e))
  {
  }

  lemma CompareFinds(s: string, p: nat, n: nat)
    requires CompareSpan(s, p, n)
    ensures CompareAt(s, p) == Some(n)
  {
    var e :| p < e && AllIn(s, p, e, Word) && HasAt(s, e, ".compare") && SpacesThenSpan(s, e + 8, p + n, '(');
    CompareFindsAt(s, p, n, e);
  }

  lemma CompareFindsAt(s: string, p: nat, n: nat, e: nat)
    requires p < e && AllIn(s, p, e, Word) && HasAt(s, e, ".compare") && SpacesThenSpan(s, e + 8, p + n, '(')
    ensures CompareAt(s, p) == Some(n)
  {
    assert s[e] == '.' by { assert s[e..e + 8][0] == s[e]; }
    assert InClass(s[p], Word);
    RunStopsAt(s, p, e, Word);
    SpacesThenFinds(s, e + 8, p + n, '(');
    CompareAtWord(s, p, e);
  }

  /** A word run of `\w+` that ends at `e` hands over to `\.compare\s*\(` at `e`. */
  lemma CompareAtWord(s: string, p: nat, e: nat)
    requires p < |s| && IsWordChar(s[p]) && e <= |s| && Run(s, p, Word) == e - p
    ensures CompareAt(s, p) == if HasAt(s, e, ".compare") then Plus(e + 8 - p, SpacesThen(s, e + 8, '(')) else None
  {
  }

  lemma KeywordWordFinds(s: string, p: nat, n: nat, kw: string)
    requires KeywordWordSpan(s, p, n, kw)
    ensures KeywordWord(s, p, kw).Some? && n <= KeywordWord(s, p, kw).value
  {
    SpacesWordFinds(s, p + |kw|, p + n);
  }

  lemma KeywordCallFinds(s: string, p: nat, n: nat, kw: string)
    requires KeywordCallSpan(s, p, n, kw)
    ensures KeywordCall(s, p, kw) == Some(n)
  {
    SpacesThenFinds(s, p + |kw|, p + n, '(');
  }

  lemma ContainerFinds(s: string, p: nat, n: nat, open: string)
    requires ContainerSpan(s, p, n, open)
    ensures Container(s, p, open).Some? && n <= Container(s, p, open).value
  {
    AnyThenFinds(s, p + |open|, p + n, {'>'});
  }

  lemma StringParamFinds(s: string, p: nat, n: nat)
    requires StringParamSpan(s, p, n)
    ensures StringParamAt(s, p) == Some(n)
  {
    ParamNameFinds(s, p + 11, p + n);
  }

  /** A `while` head is not a `for` head, so the alternation reaches it. */
  lemma WhileIsNotFor(s: string, p: nat)
    requires HasAt(s, p, "while")
    ensures !HasAt(s, p, "for")
  {
    assert s[p] == s[p..p + 5][0] == 'w';
  }

  /** Every span of `pat` at `p` is matched at `p`, and the match is at least
      as long: `MatchAt` computes the longest span, as JavaScript's greedy
      quantifiers do for these patterns. */
  lemma MatchAtIsLongest(pat: Pattern, s: string, p: nat, n: nat)
    requires Spans(pat, s, p, n)
    ensures MatchAt(pat, s, p).Some? && n <= MatchAt(pat, s, p).value
  {
    match pat
    case NewWord => KeywordWordFinds(s, p, n, "new");
    case DeleteWord => KeywordWordFinds(s, p, n, "delete");
    case MallocCall => KeywordCallFinds(s, p, n, "malloc");
    case ListType => ContainerFinds(s, p, n, "std::list<");
    case MapType => ContainerFinds(s, p, n, "std::map<");
    case PushBackCall => SpacesThenFinds(s, p + 10, p + n, '(');
    case ConcatLiteral => ConcatFinds(s, p, n);
    case StringParam => StringParamFinds(s, p, n);
    case CompareCall => CompareFinds(s, p, n);
    case LoopHead =>
      LoopKeywordIsFor(s, p);
      LoopKeywordIsWhile(s, p);
      if KeywordCallSpan(s, p, n, "for") {
        SpacesThenFinds(s, p + 3, p + n, '(');
      } else {
        SpacesThenFinds(s, p + 5, p + n, '(');
      }
  }

  // ---------------------------------------------------------------------------
  // Searching

  /** The first match of `pat` that starts at or after `from`: what
      `match(/.../g)[0]` returns for `from == 0`, and what `exec` returns when
      `lastIndex == from`. */
  function Find(pat: Pattern, s: string, from: nat): (r: Option<Match>)
    ensures r.Some? ==> from <= r.value.index
    decreases |s| - from
  {
    if from > |s| then None
    else
      match MatchAt(pat, s, from)
      case Some(n) => Some(Match(from, n))
      case None => Find(pat, s, from + 1)
  }

  /** What `Find` returns is a match of the pattern. */
  lemma {:induction false} FindIsMatch(pat: Pattern, s: string, from: nat)
    requires Find(pat, s, from).Some?
    ensures MatchAt(pat, s, Find(pat, s, from).value.index) == Some(Find(pat, s, from).value.length)
    decreases |s| - from
  {
    if from <= |s| && MatchAt(pat, s, from).None? {
      FindIsMatch(pat, s, from + 1);
    }
  }

  /** `Find` skips no position: nothing matches between `from` and what it
      returns, nor anywhere after `from` when it returns nothing. */
  lemma {:induction false} FindSkipsNothing(pat: Pattern, s: string, from: nat, p: nat)
    requires from <= p
    requires Find(pat, s, from).None? || p < Find(pat, s, from).value.index
    ensures MatchAt(pat, s, p).None?
    decreases |s| - from
  {
    if from <= |s| && MatchAt(pat, s, from).None? && from < p {
      FindSkipsNothing(pat, s, from + 1, p);
    }
  }

  /** `Find` returns the leftmost-longest match: no span starts earlier, none
      at the same place is longer, and when it finds nothing there is no span
      at or after `from`. */
  lemma {:induction false} FindIsLeftmostLongest(pat: Pattern, s: string, from: nat)
    ensures Find(pat, s, from).Some? ==>
      var m := Find(pat, s, from).value;
      && Spans(pat, s, m.index, m.length)
      && 0 < m.length && m.index + m.length <= |s|
      && (forall n: nat :: Spans(pat, s, m.index, n) ==> n <= m.length)
    ensures forall p, n :: from <= p && Spans(pat, s, p, n) ==>
      Find(pat, s, from).Some? && Find(pat, s, from).value.index <= p
  {
    forall p, n | from <= p && Spans(pat, s, p, n)
      ensures Find(pat, s, from).Some? && Find(pat, s, from).value.index <= p
    {
      MatchAtIsLongest(pat, s, p, n);
      if Find(pat, s, from).None? || p < Find(pat, s, from).value.index {
        FindSkipsNothing(pat, s, from, p);
      }
    }
    if Find(pat, s, from).Some? {
      var m := Find(pat, s, from).value;
      FindIsMatch(pat, s, from);
      MatchAtSpans(pat, s, m.index);
      forall n: nat | Spans(pat, s, m.index, n) ensures n <= m.length {
        MatchAtIsLongest(pat, s, m.index, n);
      }
    }
  }

  /** `line.match(pattern)` is non-null exactly when a span occurs somewhere. */
  lemma FindDecidesOccurs(pat: Pattern, s: string)
    ensures Find(pat, s, 0).Some? <==> Occurs(pat, s)
  {
    FindIsLeftmostLongest(pat, s, 0);
    if Find(pat, s, 0).Some? {
      var m := Find(pat, s, 0).value;
      assert Spans(pat, s, m.index, m.length);
    }
  }

  /** `m` is the match `line.match(pattern)[0]` reports: a span, no span
      starts earlier, and none starting at the same place is longer. */
  ghost predicate FirstMatch(pat: Pattern, s: string, m: Match) {
    && Spans(pat, s, m.index, m.length)
    && (forall p, n :: Spans(pat, s, p, n) ==> m.index <= p)
    && (forall n: nat :: Spans(pat, s, m.index, n) ==> n <= m.length)
  }

  /** A search from the start of the line finds the first match, and finds
      something exactly when the pattern occurs. */
  lemma FindIsFirstMatch(pat: Pattern, s: string)
    ensures Find(pat, s, 0).Some? <==> Occurs(pat, s)
    ensures Find(pat, s, 0).Some? ==> FirstMatch(pat, s, Find(pat, s, 0).value)
    ensures Find(pat, s, 0).Some? ==> Find(pat, s, 0).value.index + Find(pat, s, 0).value.length <= |s|
  {
    FindIsLeftmostLongest(pat, s, 0);
    FindDecidesOccurs(pat, s);
  }

  /** Every match starts with a character that is not whitespace. */
  lemma SpanStartsSolid(pat: Pattern, s: string, p: nat, n: nat)
    requires Spans(pat, s, p, n)
    ensures p < |s| && !InClass(s[p], Space)
  {
    match pat
    case NewWord => assert s[p] == s[p..p + 3][0];
    case DeleteWord => assert s[p] == s[p..p + 6][0];
    case MallocCall => assert s[p] == s[p..p + 6][0];
    case ListType => assert s[p] == s[p..p + 10][0];
    case MapType => assert s[p] == s[p..p + 9][0];
    case PushBackCall => assert s[p] == s[p..p + 10][0];
    case ConcatLiteral =>
      var e :| p < e && AllIn(s, p, e, Word) && PlusEqualsSpan(s, e, p + n);
      assert InClass(s[p], Word);
      if IsSpace(s[p]) { SpaceIsNotWord(s[p]); }
    case StringParam => assert s[p] == s[p..p + 11][0];
    case CompareCall =>
      var e :| p < e && AllIn(s, p, e, Word) && HasAt(s, e, ".compare") && SpacesThenSpan(s, e + 8, p + n, '(');
      assert InClass(s[p], Word);
      if IsSpace(s[p]) { SpaceIsNotWord(s[p]); }
    case LoopHead =>
      if KeywordCallSpan(s, p, n, "for") {
        assert s[p] == s[p..p + 3][0];
      } else {
        assert s[p] == s[p..p + 5][0];
      }
  }

  /** A line made only of whitespace matches no pattern. */
  lemma BlankHasNoMatch(pat: Pattern, s: string)
    requires AllIn(s, 0, |s|, Space)
    ensures !Occurs(pat, s)
  {
    if Occurs(pat, s) {
      var p: nat, n: nat :| Spans(pat, s, p, n);
      SpanStartsSolid(pat, s, p, n);
      assert false;
    }
  }
}
