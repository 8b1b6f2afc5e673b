/** The loop-nesting tracker (`analyzeLoopNesting`): a stack machine that
    runs over the whole document. Every `for (` or `while (` head pushes an
    entry and is classified by the stack height it reaches; every `}` pops
    one entry while the stack is non-empty; `{` is ignored. */
module Nesting {
  import opened Text
  import opened Issues
  import opened Patterns
  import opened Comments

  datatype LoopKind = For | While

  /** `{ line, column, type }`, one entry of `loopStack`. */
  datatype LoopEntry = LoopEntry(line: int, column: int, kind: LoopKind)

  /** The two arrays the tracker builds: the loop stack and the issues. */
  datatype Tracker = Tracker(stack: seq<LoopEntry>, issues: seq<Issue>)

  function Max(a: int, b: int): int { if a >= b then a else b }

  /** The captured group `(for|while)` of a match at `p`. */
  function KindAt(line: string, p: nat): LoopKind {
    if LoopKeywordLength(line, p) == 3 then For else While
  }

  // ---------------------------------------------------------------------------
  // The loop heads of a line

  /** A loop head of `line`: the loop pattern matches at `m.index` and its
      greedy match is `m.length` characters long. */
  predicate IsHead(line: string, m: Match) {
    MatchAt(LoopHead, line, m.index) == Some(m.length)
  }

  /** Each match starts at or after the end of the one before it. */
  predicate Ordered(ms: seq<Match>) {
    forall k, l :: 0 <= k < l < |ms| ==> ms[k].index + ms[k].length <= ms[l].index
  }

  /** Every match is a loop head of `line`. */
  predicate AllHeads(line: string, ms: seq<Match>) {
    forall k :: 0 <= k < |ms| ==> IsHead(line, ms[k])
  }

  /** Some match starts at `p`. */
  predicate StartsAt(ms: seq<Match>, p: int) {
    exists k :: 0 <= k < |ms| && ms[k].index == p
  }

  /** The matches `loopPattern.exec(line)` returns one after the other when
      `lastIndex` starts at `from`: each search resumes where the previous
      match ended, so the matches are loop heads of the line, in order and
      without overlap. */
  function LoopMatches(line: string, from: nat): seq<Match>
    decreases |line| - from
  {
    match Find(LoopHead, line, from)
    case None => []
    case Some(m) => [m] + LoopMatches(line, m.index + m.length)
  }

  /** What `exec` returns are loop heads of the line at or after `from`, in
      order and without overlap. */
  lemma {:induction false} LoopMatchesAreHeads(line: string, from: nat)
    ensures HeadList(line, from, LoopMatches(line, from))
    decreases |line| - from
  {
    match Find(LoopHead, line, from)
    case None =>
    case Some(m) =>
      var next: nat := m.index + m.length;
      FindIsMatch(LoopHead, line, from);
      LoopMatchesAreHeads(line, next);
      ConsHeadList(line, from, m, LoopMatches(line, next));
  }

  /** One `exec` call that finds a head: it comes first, the rest follow. */
  lemma LoopMatchesNext(line: string, from: nat)
    requires Find(LoopHead, line, from).Some?
    ensures LoopMatches(line, from) ==
      [Find(LoopHead, line, from).value] +
      LoopMatches(line, Find(LoopHead, line, from).value.index + Find(LoopHead, line, from).value.length)
  {
  }

  /** One `exec` call that finds nothing ends the matches. */
  lemma LoopMatchesEnd(line: string, from: nat)
    requires Find(LoopHead, line, from).None?
    ensures LoopMatches(line, from) == []
  {
  }

  /** Loop heads of `line` that lie at or after `from`, in order and
      without overlap. */
  predicate HeadList(line: string, from: int, ms: seq<Match>) {
    && (forall k :: 0 <= k < |ms| ==>
          from <= ms[k].index && 0 < ms[k].length && ms[k].index + ms[k].length <= |line|)
    && AllHeads(line, ms) && Ordered(ms)
  }

  lemma ConsHeadList(line: string, from: int, m: Match, rest: seq<Match>)
    requires from <= m.index && 0 < m.length && m.index + m.length <= |line| && IsHead(line, m)
    requires HeadList(line, m.index + m.length, rest)
    ensures HeadList(line, from, [m] + rest)
  {
    var ms := [m] + rest;
    forall k | 0 <= k < |ms|
      ensures from <= ms[k].index && 0 < ms[k].length && ms[k].index + ms[k].length <= |line|
    {
      if k > 0 { assert ms[k] == rest[k - 1]; }
    }
    ConsOrdered(m, rest);
    ConsAllHeads(line, m, rest);
  }

  lemma ConsOrdered(m: Match, rest: seq<Match>)
    requires Ordered(rest) && forall k :: 0 <= k < |rest| ==> m.index + m.length <= rest[k].index
    ensures Ordered([m] + rest)
  {
    var ms := [m] + rest;
    forall k, l | 0 <= k < l < |ms| ensures ms[k].index + ms[k].length <= ms[l].index {
      assert ms[l] == rest[l - 1];
      if k > 0 { assert ms[k] == rest[k - 1]; }
    }
  }

  lemma ConsAllHeads(line: string, m: Match, rest: seq<Match>)
    requires IsHead(line, m) && AllHeads(line, rest)
    ensures AllHeads(line, [m] + rest)
  {
    var ms := [m] + rest;
    forall k | 0 <= k < |ms| ensures IsHead(line, ms[k]) {
      if k > 0 { assert ms[k] == rest[k - 1]; }
    }
  }

  /** A loop head starts with `for` or `while` after a non-word character. */
  lemma HeadStartsWithKeyword(line: string, q: nat)
    requires MatchAt(LoopHead, line, q).Some?
    ensures NoWordBefore(line, q) && (HasAt(line, q, "for") || HasAt(line, q, "while"))
  {
    LoopHeadSound(line, q);
  }

  /** A loop head cannot start inside another one: the characters after the
      keyword are spaces and `(`, and the keyword's own letters fail `\b`. */
  lemma LoopHeadsDoNotOverlap(line: string, p: nat, q: nat)
    requires MatchAt(LoopHead, line, p).Some? && p < q < p + MatchAt(LoopHead, line, p).value
    ensures MatchAt(LoopHead, line, q).None?
  {
    var n := MatchAt(LoopHead, line, p).value;
    LoopHeadSound(line, p);
    var kw := if HasAt(line, p, "for") then "for" else "while";
    assert KeywordCallSpan(line, p, n, kw);
    if MatchAt(LoopHead, line, q).Some? {
      HeadStartsWithKeyword(line, q);
      if q < p + |kw| {
        InsideKeyword(line, p, q, kw);
      } else {
        AfterKeyword(line, p, n, q, kw);
      }
      assert false;
    }
  }

  /** Inside `for` or `while` the character before is a letter, so `\b` fails. */
  lemma InsideKeyword(line: string, p: nat, q: nat, kw: string)
    requires kw == "for" || kw == "while"
    requires HasAt(line, p, kw) && p < q < p + |kw|
    ensures !NoWordBefore(line, q)
  {
    assert line[q - 1] == line[p..p + |kw|][q - 1 - p];
  }

  /** After the keyword come only spaces and the `(`, where no keyword starts. */
  lemma AfterKeyword(line: string, p: nat, n: nat, q: nat, kw: string)
    requires KeywordCallSpan(line, p, n, kw) && p + |kw| <= q < p + n
    ensures !HasAt(line, q, "for") && !HasAt(line, q, "while")
  {
    assert InClass(line[q], Space) || q == p + n - 1;
    if HasAt(line, q, "for") {
      FirstCharAt(line, q, "for");
      assert false;
    }
    if HasAt(line, q, "while") {
      FirstCharAt(line, q, "while");
      assert false;
    }
  }

  lemma FirstCharAt(s: string, q: int, w: string)
    requires w != [] && HasAt(s, q, w)
    ensures s[q] == w[0]
  {
    assert s[q] == s[q..q + |w|][0];
  }

  /** The heads `exec` reports are exactly the positions where the loop
      pattern matches: none is skipped and none is made up. */
  lemma LoopMatchesAreAllHeads(line: string, from: nat, p: nat)
    requires from <= p
    ensures MatchAt(LoopHead, line, p).Some? <==> StartsAt(LoopMatches(line, from), p)
  {
    if MatchAt(LoopHead, line, p).Some? {
      var k := HeadIsFound(line, from, p);
    } else {
      LoopMatchesAreHeads(line, from);
    }
  }

  /** A head at or after `from` is among the matches `exec` returns; `k` is
      its place among them. */
  lemma {:induction false} HeadIsFound(line: string, from: nat, p: nat) returns (k: nat)
    requires from <= p && MatchAt(LoopHead, line, p).Some?
    ensures k < |LoopMatches(line, from)| && LoopMatches(line, from)[k].index == p
    decreases |line| - from
  {
    NextHeadReachesAt(line, from, p);
    var m := Find(LoopHead, line, from).value;
    LoopMatchesNext(line, from);
    if p == m.index {
      k := 0;
      ConsIndex(LoopMatches(line, from), m, LoopMatches(line, m.index + m.length), k);
    } else {
      var j := HeadIsFound(line, m.index + m.length, p);
      k := j + 1;
      ConsIndex(LoopMatches(line, from), m, LoopMatches(line, m.index + m.length), k);
    }
  }

  lemma ConsIndex(all: seq<Match>, m: Match, rest: seq<Match>, k: nat)
    requires all == [m] + rest && k <= |rest|
    ensures k < |all| && all[k] == if k == 0 then m else rest[k - 1]
  {
  }

  /** The search from `from` stops at a head `p` or at one whose match ends
      at or before `p`. */
  lemma NextHeadReachesAt(line: string, from: nat, p: nat)
    requires from <= p && MatchAt(LoopHead, line, p).Some?
    ensures Find(LoopHead, line, from).Some?
    ensures var m := Find(LoopHead, line, from).value;
      p == m.index || m.index + m.length <= p
  {
    if Find(LoopHead, line, from).None? || p < Find(LoopHead, line, from).value.index {
      FindSkipsNothing(LoopHead, line, from, p);
    }
    var m := Find(LoopHead, line, from).value;
    FindIsMatch(LoopHead, line, from);
    if m.index < p < m.index + m.length {
      LoopHeadsDoNotOverlap(line, m.index, p);
    }
  }

  // ---------------------------------------------------------------------------
  // One line of the tracker

  /** The issue for a head pushed at stack height `level` (at least two). */
  function LoopIssue(level: int, i: int, m: Match): Issue {
    if level >= 3 then
      Issue(i, m.index, m.length, High, DeepLoop(level), AlgorithmicComplexity, Min(10, 7 + level))
    else
      Issue(i, m.index, m.length, Medium, DoubleLoop, AlgorithmicComplexity, 6)
  }

  /** Push one head and classify the height the stack reaches. */
  function PushLoop(t: Tracker, line: string, i: int, m: Match): Tracker {
    var stack := t.stack + [LoopEntry(i, m.index, KindAt(line, m.index))];
    var level := |stack|;
    Tracker(stack, if level >= 2 then t.issues + [LoopIssue(level, i, m)] else t.issues)
  }

  /** The first number of heads of the line that no issue is reported for:
      one when the first head lands on an empty stack. */
  function Silent(height: int, count: int): nat {
    if height == 0 && count > 0 then 1 else 0
  }

  /** The `exec` loop: every head is pushed, left to right. */
  function PushAll(t: Tracker, line: string, i: int, ms: seq<Match>): Tracker
    decreases |ms|
  {
    if ms == [] then t
    else PushLoop(PushAll(t, line, i, ms[..|ms| - 1]), line, i, ms[|ms| - 1])
  }

  /** Pushing one more head after the others. */
  lemma PushAllSnoc(t: Tracker, line: string, i: int, ms: seq<Match>, m: Match)
    ensures PushAll(t, line, i, ms + [m]) == PushLoop(PushAll(t, line, i, ms), line, i, m)
  {
    assert (ms + [m])[..|ms|] == ms;
  }

  /** Pushing the first head, then the rest, is pushing them all. */
  lemma {:induction false} PushAllCons(t: Tracker, line: string, i: int, m: Match, rest: seq<Match>)
    ensures PushAll(t, line, i, [m] + rest) == PushAll(PushLoop(t, line, i, m), line, i, rest)
    decreases |rest|
  {
    if rest == [] {
      assert [m] + rest == [] + [m];
      PushAllSnoc(t, line, i, [], m);
    } else {
      var init, last := rest[..|rest| - 1], rest[|rest| - 1];
      assert rest == init + [last];
      assert [m] + rest == ([m] + init) + [last];
      PushAllSnoc(t, line, i, [m] + init, last);
      PushAllSnoc(PushLoop(t, line, i, m), line, i, init, last);
      PushAllCons(t, line, i, m, init);
    }
  }

  /** The stack entries of the heads `ms`, in order. */
  function Entries(line: string, i: int, ms: seq<Match>): (r: seq<LoopEntry>)
    ensures |r| == |ms|
  {
    seq(|ms|, k requires 0 <= k < |ms| => LoopEntry(i, ms[k].index, KindAt(line, ms[k].index)))
  }

  /** The issues for the heads `ms` pushed onto a stack of height `height`:
      head `k` reaches height `height + k + 1` and is reported at that level
      unless the level is one. */
  function LevelIssues(height: nat, i: int, ms: seq<Match>): (r: seq<Issue>)
    ensures |r| == |ms| - Silent(height, |ms|)
  {
    var s := Silent(height, |ms|);
    seq(|ms| - s, j requires 0 <= j < |ms| - s => LoopIssue(height + s + j + 1, i, ms[s + j]))
  }

  lemma EntriesSnoc(line: string, i: int, ms: seq<Match>, m: Match)
    ensures Entries(line, i, ms + [m]) == Entries(line, i, ms) + [LoopEntry(i, m.index, KindAt(line, m.index))]
  {
    var l, r := Entries(line, i, ms + [m]), Entries(line, i, ms) + [LoopEntry(i, m.index, KindAt(line, m.index))];
    forall k | 0 <= k < |l| ensures l[k] == r[k] {
      if k < |ms| { assert (ms + [m])[k] == ms[k]; }
    }
  }

  lemma LevelIssuesSnoc(height: nat, i: int, ms: seq<Match>, m: Match)
    ensures var level := height + |ms| + 1;
      LevelIssues(height, i, ms + [m]) ==
        LevelIssues(height, i, ms) + if level >= 2 then [LoopIssue(level, i, m)] else []
  {
    var level := height + |ms| + 1;
    var l := LevelIssues(height, i, ms + [m]);
    var r := LevelIssues(height, i, ms) + if level >= 2 then [LoopIssue(level, i, m)] else [];
    var s := Silent(height, |ms| + 1);
    assert |ms| > 0 ==> s == Silent(height, |ms|);
    forall j | 0 <= j < |l| ensures l[j] == r[j] {
      assert (ms + [m])[s + j] == if s + j < |ms| then ms[s + j] else m;
    }
  }

  /** The `exec` loop in closed form: the stack gains one entry per head, in
      order, and the issues gain one report per head that lands at height two
      or more. */
  lemma {:induction false} PushAllIsClosedForm(t: Tracker, line: string, i: int, ms: seq<Match>)
    ensures PushAll(t, line, i, ms) ==
      Tracker(t.stack + Entries(line, i, ms), t.issues + LevelIssues(|t.stack|, i, ms))
    decreases |ms|
  {
    if ms != [] {
      var init, m := ms[..|ms| - 1], ms[|ms| - 1];
      assert ms == init + [m];
      PushAllIsClosedForm(t, line, i, init);
      ClosedFormStep(t, PushAll(t, line, i, init), line, i, init, m);
    }
  }

  /** One more push keeps the closed form. */
  lemma ClosedFormStep(t: Tracker, prev: Tracker, line: string, i: int, init: seq<Match>, m: Match)
    requires prev == Tracker(t.stack + Entries(line, i, init), t.issues + LevelIssues(|t.stack|, i, init))
    ensures PushLoop(prev, line, i, m) ==
      Tracker(t.stack + Entries(line, i, init + [m]), t.issues + LevelIssues(|t.stack|, i, init + [m]))
  {
    EntriesSnoc(line, i, init, m);
    LevelIssuesSnoc(|t.stack|, i, init, m);
    assert t.stack + Entries(line, i, init + [m]) == prev.stack + [LoopEntry(i, m.index, KindAt(line, m.index))];
  }

  /** The pop loop: `n` closing braces pop `n` entries, or all of them. */
  function PopClosers(stack: seq<LoopEntry>, n: nat): (r: seq<LoopEntry>)
    ensures r == stack[..|stack| - Min(n, |stack|)]
  {
    if n == 0 || stack == [] then stack else PopClosers(stack[..|stack| - 1], n - 1)
  }

  /** An examined line with heads `ms`: push them, then pop one entry per `}`. */
  function NestingStep(t: Tracker, line: string, i: int, ms: seq<Match>): Tracker {
    var pushed := PushAll(t, line, i, ms);
    Tracker(PopClosers(pushed.stack, CountChar(line, '}')), pushed.issues)
  }

  /** The stack height after a line: every head adds one, every `}` takes
      one away, and it never goes below zero. `{` plays no part. */
  lemma StackAfterLine(t: Tracker, line: string, i: int, ms: seq<Match>)
    ensures |NestingStep(t, line, i, ms).stack| == Max(0, |t.stack| + |ms| - multiset(line)['}'])
  {
    PushAllIsClosedForm(t, line, i, ms);
  }

  /** The classification of a reported head: the highlight is one of the
      line's heads; a double loop (height two) is medium with score 6, a
      deeper one high with score `min(10, 7 + level)`. */
  predicate Classified(issue: Issue, heads: seq<Match>) {
    && issue.category == AlgorithmicComplexity
    && 0 <= issue.column && 0 <= issue.length
    && Match(issue.column, issue.length) in heads
    && match issue.message
       case DoubleLoop => issue.severity == Medium && issue.score == 6
       case DeepLoop(level) => level >= 3 && issue.severity == High && issue.score == Min(10, 7 + level)
       case Detected(_) => false
  }

  /** A reported head is classified by the height it reached. */
  lemma LoopIssueIsClassified(level: int, i: int, m: Match, heads: seq<Match>)
    requires level >= 2 && m in heads
    ensures LoopIssue(level, i, m).line == i && Classified(LoopIssue(level, i, m), heads)
  {
  }

  /** The issues a line adds, after the ones before it. */
  predicate AddsClassified(before: seq<Issue>, after: seq<Issue>, heads: seq<Match>, i: int) {
    |before| <= |after| && after[..|before|] == before &&
    forall j :: |before| <= j < |after| ==> after[j].line == i && Classified(after[j], heads)
  }

  /** Every issue a line adds is a classified head of that line, one per head
      except the first head on an empty stack. */
  lemma NestingStepIssues(t: Tracker, line: string, i: int, ms: seq<Match>)
    ensures |NestingStep(t, line, i, ms).issues| == |t.issues| + |ms| - Silent(|t.stack|, |ms|)
    ensures AddsClassified(t.issues, NestingStep(t, line, i, ms).issues, ms, i)
  {
    PushAllIsClosedForm(t, line, i, ms);
    var added := LevelIssues(|t.stack|, i, ms);
    var after := t.issues + added;
    assert after[..|t.issues|] == t.issues;
    forall j | |t.issues| <= j < |after| ensures after[j].line == i && Classified(after[j], ms) {
      var s := Silent(|t.stack|, |ms|);
      var k := j - |t.issues|;
      assert after[j] == added[k] == LoopIssue(|t.stack| + s + k + 1, i, ms[s + k]);
      LoopIssueIsClassified(|t.stack| + s + k + 1, i, ms[s + k], ms);
    }
  }

  // ---------------------------------------------------------------------------
  // The tracker over a document

  /** How the tracker sees one line: its text, the heads `exec` finds in it
      and whether the line is examined at all. */
  datatype Scanned = Scanned(text: string, heads: seq<Match>, examined: bool)

  /** The tracker after the first `n` lines: examined lines push and pop,
      the others leave it alone. */
  function Track(scanned: seq<Scanned>, n: nat): Tracker
    requires n <= |scanned|
  {
    if n == 0 then Tracker([], []) else StepOn(Track(scanned, n - 1), scanned[n - 1], n - 1)
  }

  /** What line `i` does to the tracker. */
  function StepOn(t: Tracker, s: Scanned, i: int): Tracker {
    if s.examined then NestingStep(t, s.text, i, s.heads) else t
  }

  /** The heads recorded for every line are loop heads of its text. */
  predicate HeadsFound(scanned: seq<Scanned>) {
    forall k :: 0 <= k < |scanned| ==> AllHeads(scanned[k].text, scanned[k].heads)
  }

  /** Every issue lies on one of the first `n` lines, that line is examined,
      and the issue is a classified loop head of that line's text. */
  predicate IssuesOn(issues: seq<Issue>, scanned: seq<Scanned>, n: nat)
    requires n <= |scanned|
  {
    forall j :: 0 <= j < |issues| ==>
      0 <= issues[j].line < n && scanned[issues[j].line].examined &&
      Classified(issues[j], scanned[issues[j].line].heads)
  }

  lemma KeepIssuesOn(issues: seq<Issue>, scanned: seq<Scanned>, i: nat, n: nat)
    requires i < n <= |scanned| && IssuesOn(issues, scanned, i)
    ensures IssuesOn(issues, scanned, n)
  {
  }

  lemma ExtendIssuesOn(before: seq<Issue>, after: seq<Issue>, scanned: seq<Scanned>, i: nat, n: nat)
    requires i < n <= |scanned| && IssuesOn(before, scanned, i) && scanned[i].examined
    requires AddsClassified(before, after, scanned[i].heads, i)
    ensures IssuesOn(after, scanned, n)
  {
    forall j | 0 <= j < |after|
      ensures 0 <= after[j].line < n && scanned[after[j].line].examined &&
              Classified(after[j], scanned[after[j].line].heads)
    {
      if j < |before| { assert after[j] == before[j]; }
    }
  }

  /** Every nesting issue lies on an examined line and is a classified loop
      head of that line. */
  lemma {:induction false} TrackIssues(scanned: seq<Scanned>, n: nat)
    requires n <= |scanned|
    ensures IssuesOn(Track(scanned, n).issues, scanned, n)
  {
    if n > 0 {
      var t := Track(scanned, n - 1);
      var s := scanned[n - 1];
      var i := n - 1;
      TrackIssues(scanned, i);
      if s.examined {
        NestingStepIssues(t, s.text, i, s.heads);
        ExtendIssuesOn(t.issues, NestingStep(t, s.text, i, s.heads).issues, scanned, i, n);
      } else {
        KeepIssuesOn(t.issues, scanned, i, n);
      }
    }
  }

  /** The issues come out line by line: their line numbers never decrease. */
  predicate LinesAscend(issues: seq<Issue>) {
    forall j, k :: 0 <= j < k < |issues| ==> issues[j].line <= issues[k].line
  }

  /** The tracker reports the lines in document order. */
  lemma {:induction false} TrackLinesAscend(scanned: seq<Scanned>, n: nat)
    requires n <= |scanned|
    ensures LinesAscend(Track(scanned, n).issues)
  {
    if n > 0 {
      var t := Track(scanned, n - 1);
      var s := scanned[n - 1];
      TrackLinesAscend(scanned, n - 1);
      if s.examined {
        TrackIssues(scanned, n - 1);
        NestingStepIssues(t, s.text, n - 1, s.heads);
        AscendAfter(t.issues, NestingStep(t, s.text, n - 1, s.heads).issues, s.heads, n - 1);
      }
    }
  }

  lemma AscendAfter(before: seq<Issue>, after: seq<Issue>, heads: seq<Match>, i: int)
    requires LinesAscend(before) && forall j :: 0 <= j < |before| ==> before[j].line < i
    requires AddsClassified(before, after, heads, i)
    ensures LinesAscend(after)
  {
    forall j, k | 0 <= j < k < |after| ensures after[j].line <= after[k].line {
      if k < |before| {
        assert after[j] == before[j] && after[k] == before[k];
      } else if j < |before| {
        assert after[j] == before[j];
      }
    }
  }

  /** When the recorded heads are loop heads of their lines, every nesting
      issue highlights a loop head of the line it is reported on. */
  lemma TrackReportsHeads(scanned: seq<Scanned>, n: nat)
    requires n <= |scanned| && HeadsFound(scanned)
    ensures forall j :: 0 <= j < |Track(scanned, n).issues| ==>
      var issue := Track(scanned, n).issues[j];
      && 0 <= issue.line < n && 0 <= issue.column && 0 <= issue.length
      && IsHead(scanned[issue.line].text, Match(issue.column, issue.length))
  {
    var issues := Track(scanned, n).issues;
    TrackIssues(scanned, n);
    forall j | 0 <= j < |issues|
      ensures && 0 <= issues[j].line < n && 0 <= issues[j].column && 0 <= issues[j].length
              && IsHead(scanned[issues[j].line].text, Match(issues[j].column, issues[j].length))
    {
      var heads := scanned[issues[j].line].heads;
      var k :| 0 <= k < |heads| && heads[k] == Match(issues[j].column, issues[j].length);
    }
  }

  /** A line that is not examined neither pushes nor pops. */
  lemma SkippedLineKeepsTracker(scanned: seq<Scanned>, n: nat)
    requires n < |scanned| && !scanned[n].examined
    ensures Track(scanned, n + 1) == Track(scanned, n)
  {
  }

  /** The JavaScript version strips every line again (from a clear state)
      and examines the lines that are not blank afterwards. */
  function ScanJs(lines: seq<string>): (scanned: seq<Scanned>)
    ensures |scanned| == |lines|
  {
    seq(|lines|, k requires 0 <= k < |lines| =>
      var clean := CleanLine(lines, k);
      Scanned(clean, LoopMatches(clean, 0), Trim(clean) != []))
  }

  /** The TypeScript version works on the raw lines and skips a line whose
      trimmed text is empty or starts with a line-comment or block-comment
      opener. */
  predicate SkippedTs(line: string) {
    var trimmed := Trim(line);
    trimmed == [] || HasAt(trimmed, 0, "//") || HasAt(trimmed, 0, "/*")
  }

  function ScanTs(lines: seq<string>): (scanned: seq<Scanned>)
    ensures |scanned| == |lines|
  {
    seq(|lines|, k requires 0 <= k < |lines| =>
      Scanned(lines[k], LoopMatches(lines[k], 0), !SkippedTs(lines[k])))
  }

  /** Both scans record the heads `exec` finds on each line. */
  lemma ScansFindHeads(lines: seq<string>)
    ensures HeadsFound(ScanJs(lines)) && HeadsFound(ScanTs(lines))
  {
    var js, ts := ScanJs(lines), ScanTs(lines);
    forall k | 0 <= k < |lines|
      ensures AllHeads(js[k].text, js[k].heads) && AllHeads(ts[k].text, ts[k].heads)
    {
      LoopMatchesAreHeads(CleanLine(lines, k), 0);
      LoopMatchesAreHeads(lines[k], 0);
    }
  }

  // ---------------------------------------------------------------------------
  // The trackers as the code runs them

  /** The `exec` loop: push every head of the line, classifying each by the
      height it reaches. */
  method PushHeads(stack0: seq<LoopEntry>, issues0: seq<Issue>, line: string, i: int)
    returns (loopStack: seq<LoopEntry>, issues: seq<Issue>)
    ensures Tracker(loopStack, issues) == PushAll(Tracker(stack0, issues0), line, i, LoopMatches(line, 0))
  {
    loopStack, issues := stack0, issues0;
    var lastIndex: nat := 0;
    var loopMatch := Find(LoopHead, line, lastIndex);
    while loopMatch.Some?
      invariant loopMatch == Find(LoopHead, line, lastIndex)
      invariant PushAll(Tracker(loopStack, issues), line, i, LoopMatches(line, lastIndex))
        == PushAll(Tracker(stack0, issues0), line, i, LoopMatches(line, 0))
      decreases |LoopMatches(line, lastIndex)|
    {
      loopStack, issues, lastIndex := ExecTurn(loopStack, issues, line, i, lastIndex, loopMatch.value);
      loopMatch := Find(LoopHead, line, lastIndex);
    }
    LastExec(Tracker(loopStack, issues), line, i, lastIndex);
  }

  /** One turn of the `exec` loop: push the head found at or after
      `lastIndex0`, and move `lastIndex` past it. */
  method ExecTurn(stack0: seq<LoopEntry>, issues0: seq<Issue>, line: string, i: int, lastIndex0: nat, m: Match)
    returns (loopStack: seq<LoopEntry>, issues: seq<Issue>, lastIndex: nat)
    requires Find(LoopHead, line, lastIndex0) == Some(m)
    ensures |LoopMatches(line, lastIndex)| < |LoopMatches(line, lastIndex0)|
    ensures PushAll(Tracker(loopStack, issues), line, i, LoopMatches(line, lastIndex))
      == PushAll(Tracker(stack0, issues0), line, i, LoopMatches(line, lastIndex0))
  {
    loopStack, issues := PushHead(stack0, issues0, line, i, m);
    lastIndex := m.index + m.length;
    NextExec(Tracker(stack0, issues0), Tracker(loopStack, issues), line, i, lastIndex0, m, lastIndex);
  }

  /** An `exec` call that finds a head leaves one head fewer to push. */
  lemma NextExec(t: Tracker, t': Tracker, line: string, i: int, from: nat, m: Match, next: nat)
    requires Find(LoopHead, line, from) == Some(m) && next == m.index + m.length
    requires t' == PushLoop(t, line, i, m)
    ensures |LoopMatches(line, next)| < |LoopMatches(line, from)|
    ensures PushAll(t', line, i, LoopMatches(line, next)) == PushAll(t, line, i, LoopMatches(line, from))
  {
    LoopMatchesNext(line, from);
    ConsStep(t, line, i, LoopMatches(line, from), m, LoopMatches(line, next));
  }

  lemma ConsStep(t: Tracker, line: string, i: int, all: seq<Match>, m: Match, rest: seq<Match>)
    requires all == [m] + rest
    ensures |rest| < |all| && PushAll(PushLoop(t, line, i, m), line, i, rest) == PushAll(t, line, i, all)
  {
    PushAllCons(t, line, i, m, rest);
  }

  /** An `exec` call that finds nothing leaves nothing to push. */
  lemma LastExec(t: Tracker, line: string, i: int, from: nat)
    requires Find(LoopHead, line, from).None?
    ensures PushAll(t, line, i, LoopMatches(line, from)) == t
  {
    LoopMatchesEnd(line, from);
  }

  /** One iteration of the `exec` loop: push the head, and report the loop
      when the stack has become two or more deep. */
  method PushHead(stack0: seq<LoopEntry>, issues0: seq<Issue>, line: string, i: int, m: Match)
    returns (loopStack: seq<LoopEntry>, issues: seq<Issue>)
    ensures Tracker(loopStack, issues) == PushLoop(Tracker(stack0, issues0), line, i, m)
  {
    var column := m.index;
    loopStack := stack0 + [LoopEntry(i, column, KindAt(line, column))];
    issues := issues0;
    var nestingLevel := |loopStack|;
    if nestingLevel >= 3 {
      issues := issues + [Issue(i, column, m.length, High, DeepLoop(nestingLevel),
                                AlgorithmicComplexity, Min(10, 7 + nestingLevel))];
    } else if nestingLevel == 2 {
      issues := issues + [Issue(i, column, m.length, Medium, DoubleLoop, AlgorithmicComplexity, 6)];
    }
  }

  /** The pop loop: one entry per `}` while the stack is non-empty. */
  method PopLoops(stack0: seq<LoopEntry>, line: string) returns (loopStack: seq<LoopEntry>)
    ensures loopStack == PopClosers(stack0, CountChar(line, '}'))
  {
    loopStack := stack0;
    var closeBraces := CountChar(line, '}');
    var j := 0;
    while j < closeBraces && |loopStack| > 0
      invariant 0 <= j <= closeBraces
      invariant PopClosers(loopStack, closeBraces - j) == PopClosers(stack0, closeBraces)
    {
      loopStack := loopStack[..|loopStack| - 1];
      j := j + 1;
    }
  }

  /** The body of the per-line loop, shared by both versions. */
  method ScanLine(stack0: seq<LoopEntry>, issues0: seq<Issue>, line: string, i: int)
    returns (loopStack: seq<LoopEntry>, issues: seq<Issue>)
    ensures Tracker(loopStack, issues) == NestingStep(Tracker(stack0, issues0), line, i, LoopMatches(line, 0))
  {
    loopStack, issues := PushHeads(stack0, issues0, line, i);
    loopStack := PopLoops(loopStack, line);
  }

  /** One line of the JavaScript version, after stripping: skipped when blank. */
  method ScanLineJs(stack0: seq<LoopEntry>, issues0: seq<Issue>, line: string, i: int)
    returns (loopStack: seq<LoopEntry>, issues: seq<Issue>)
    ensures Tracker(loopStack, issues) ==
      StepOn(Tracker(stack0, issues0), Scanned(line, LoopMatches(line, 0), Trim(line) != []), i)
  {
    loopStack, issues := stack0, issues0;
    if |Trim(line)| != 0 {
      loopStack, issues := ScanLine(loopStack, issues, line, i);
    }
  }

  /** One line of the TypeScript version: skipped when blank or when it
      starts with a comment opener. */
  method ScanLineTs(stack0: seq<LoopEntry>, issues0: seq<Issue>, line: string, i: int)
    returns (loopStack: seq<LoopEntry>, issues: seq<Issue>)
    ensures Tracker(loopStack, issues) ==
      StepOn(Tracker(stack0, issues0), Scanned(line, LoopMatches(line, 0), !SkippedTs(line)), i)
  {
    loopStack, issues := stack0, issues0;
    var trimmedLine := Trim(line);
    if !(HasAt(trimmedLine, 0, "//") || HasAt(trimmedLine, 0, "/*") || |trimmedLine| == 0) {
      loopStack, issues := ScanLine(loopStack, issues, line, i);
    }
  }

  /** One iteration of the JavaScript version: strip line `i` with the
      shared flag, then scan what is left. */
  method NestingLineJs(stack0: seq<LoopEntry>, issues0: seq<Issue>, lines: seq<string>, i: nat,
                       inBlockComment: BlockCommentFlag)
    returns (loopStack: seq<LoopEntry>, issues: seq<Issue>)
    requires i < |lines| && inBlockComment.value == StateBefore(lines, i)
    requires Tracker(stack0, issues0) == Track(ScanJs(lines), i)
    modifies inBlockComment
    ensures inBlockComment.value == StateBefore(lines, i + 1)
    ensures Tracker(loopStack, issues) == Track(ScanJs(lines), i + 1)
  {
    var line := StripComments(lines[i], inBlockComment);
    assert line == CleanLine(lines, i);
    loopStack, issues := ScanLineJs(stack0, issues0, line, i);
  }

  /** `analyzeLoopNesting` of the JavaScript version. */
  method AnalyzeLoopNesting(lines: seq<string>) returns (issues: seq<Issue>)
    ensures issues == Track(ScanJs(lines), |lines|).issues
  {
    issues := [];
    var loopStack: seq<LoopEntry> := [];
    var inBlockComment := new BlockCommentFlag(false);
    for i := 0 to |lines|
      invariant inBlockComment.value == StateBefore(lines, i)
      invariant Tracker(loopStack, issues) == Track(ScanJs(lines), i)
    {
      loopStack, issues := NestingLineJs(loopStack, issues, lines, i, inBlockComment);
    }
  }

  /** `analyzeLoopNesting` of the TypeScript version. */
  method AnalyzeLoopNestingTs(lines: seq<string>) returns (issues: seq<Issue>)
    ensures issues == Track(ScanTs(lines), |lines|).issues
  {
    issues := [];
    var loopStack: seq<LoopEntry> := [];
    for i := 0 to |lines|
      invariant Tracker(loopStack, issues) == Track(ScanTs(lines), i)
    {
      loopStack, issues := NestingLineTs(loopStack, issues, lines, i);
    }
  }

  /** One iteration of the TypeScript version. */
  method NestingLineTs(stack0: seq<LoopEntry>, issues0: seq<Issue>, lines: seq<string>, i: nat)
    returns (loopStack: seq<LoopEntry>, issues: seq<Issue>)
    requires i < |lines| && Tracker(stack0, issues0) == Track(ScanTs(lines), i)
    ensures Tracker(loopStack, issues) == Track(ScanTs(lines), i + 1)
  {
    loopStack, issues := ScanLineTs(stack0, issues0, lines[i], i);
    TrackTsStep(lines, i);
  }

  /** Line `i` of the TypeScript scan steps the tracker as `ScanLineTs` does. */
  lemma TrackTsStep(lines: seq<string>, i: nat)
    requires i < |lines|
    ensures Track(ScanTs(lines), i + 1) ==
      StepOn(Track(ScanTs(lines), i), Scanned(lines[i], LoopMatches(lines[i], 0), !SkippedTs(lines[i])), i)
  {
  }
}
