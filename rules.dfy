/** The nine single-line detectors (`analyzeMemoryManagement`,
    `analyzeSTLUsage`, `analyzeStringOperations`). Each detector tests one
    pattern against the line with `line.match(...)`, reports at most one issue,
    places it at the first occurrence of a fixed anchor (`line.indexOf(...)`),
    and takes its length either from the first match or from a constant. */
module Rules {
  import opened Text
  import opened Issues
  import opened Patterns

  // ---------------------------------------------------------------------------
  // The rule table

  function PatternOf(rule: Rule): Pattern {
    match rule
    case RawNew => NewWord
    case RawDelete => DeleteWord
    case Malloc => MallocCall
    case ListUsage => ListType
    case MapUsage => MapType
    case PushBack => PushBackCall
    case StringConcat => ConcatLiteral
    case StringByValue => StringParam
    case StringCompare => CompareCall
  }

  /** The substring whose first index becomes the issue's column. */
  function AnchorOf(rule: Rule): (a: string)
    ensures |a| > 0
  {
    match rule
    case RawNew => "new"
    case RawDelete => "delete"
    case Malloc => "malloc"
    case ListUsage => "std::list"
    case MapUsage => "std::map"
    case PushBack => ".push_back"
    case StringConcat => "+="
    case StringByValue => "std::string"
    case StringCompare => ".compare"
  }

  /** The constant highlight length, or `None` when the length of the first
      match is reported. */
  function FixedLength(rule: Rule): Option<nat> {
    match rule
    case Malloc => Some(6)
    case PushBack => Some(10)
    case StringConcat => Some(2)
    case StringByValue => Some(11)
    case StringCompare => Some(8)
    case _ => None
  }

  function SeverityOf(rule: Rule): Severity {
    match rule
    case RawNew | RawDelete | Malloc => High
    case ListUsage => Medium
    case _ => Low
  }

  function CategoryOf(rule: Rule): Category {
    match rule
    case RawNew | RawDelete | Malloc => MemoryManagement
    case ListUsage | MapUsage | PushBack => StlEfficiency
    case _ => StringOperations
  }

  function ScoreOf(rule: Rule): int {
    match rule
    case RawNew => 8
    case RawDelete => 8
    case Malloc => 9
    case ListUsage => 5
    case MapUsage => 4
    case PushBack => 3
    case StringConcat => 4
    case StringByValue => 3
    case StringCompare => 2
  }

  /** The position of a detector in the order a line is examined. */
  function Rank(rule: Rule): nat {
    match rule
    case RawNew => 0
    case RawDelete => 1
    case Malloc => 2
    case ListUsage => 3
    case MapUsage => 4
    case PushBack => 5
    case StringConcat => 6
    case StringByValue => 7
    case StringCompare => 8
  }

  /** Every fixed length is the length of the anchor. */
  lemma FixedLengthIsAnchor(rule: Rule)
    ensures FixedLength(rule).Some? ==> FixedLength(rule).value == |AnchorOf(rule)|
  {
  }

  lemma HasAtShorter(s: string, p: int, pat: string, m: nat)
    requires HasAt(s, p, pat) && m <= |pat|
    ensures HasAt(s, p, pat[..m])
  {
    assert s[p..p + m] == s[p..p + |pat|][..m];
  }

  lemma ConcatAnchor(s: string, p: nat, n: nat) returns (k: nat)
    requires ConcatSpan(s, p, n)
    ensures p <= k && HasAt(s, k, "+=")
  {
    var e :| p < e && AllIn(s, p, e, Word) && PlusEqualsSpan(s, e, p + n);
    var e2 :| AllIn(s, e, e2, Space) && HasAt(s, e2, "+=") && QuotedSpan(s, e2 + 2, p + n);
    k := e2;
  }

  lemma CompareAnchor(s: string, p: nat, n: nat) returns (k: nat)
    requires CompareSpan(s, p, n)
    ensures p <= k && HasAt(s, k, ".compare")
  {
    var e :| p < e && AllIn(s, p, e, Word) && HasAt(s, e, ".compare") && SpacesThenSpan(s, e + 8, p + n, '(');
    k := e;
  }

  /** The anchor occurs inside every match: at its start when the match
      length is reported, somewhere at or after its start otherwise. */
  lemma AnchorInSpan(rule: Rule, s: string, p: nat, n: nat)
    requires Spans(PatternOf(rule), s, p, n)
    ensures exists k :: p <= k && HasAt(s, k, AnchorOf(rule)) && (FixedLength(rule).None? ==> k == p)
  {
    match rule
    case ListUsage =>
      HasAtShorter(s, p, "std::list<", 9);
      assert "std::list<"[..9] == "std::list";
      assert HasAt(s, p, AnchorOf(rule));
    case MapUsage =>
      HasAtShorter(s, p, "std::map<", 8);
      assert "std::map<"[..8] == "std::map";
      assert HasAt(s, p, AnchorOf(rule));
    case StringConcat =>
      var k := ConcatAnchor(s, p, n);
      assert HasAt(s, k, AnchorOf(rule));
    case StringCompare =>
      var k := CompareAnchor(s, p, n);
      assert HasAt(s, k, AnchorOf(rule));
    case _ =>
      assert HasAt(s, p, AnchorOf(rule));
  }

  // ---------------------------------------------------------------------------
  // One detector

  /** The `unordered_map` exception of the `std::map` detector. */
  predicate Suppressed(rule: Rule, line: string) {
    rule == MapUsage && Contains(line, "unordered_map")
  }

  /** The detector's condition: its pattern occurs and it is not suppressed. */
  ghost predicate Fires(rule: Rule, line: string) {
    Occurs(PatternOf(rule), line) && !Suppressed(rule, line)
  }

  /** `issue` is the report of `rule` on line `lineNo`: the rule's tag,
      severity, category and score; the column of the first anchor; the
      length of the first match (or the fixed length); and a highlight that
      stays on the line. */
  ghost predicate ReportOf(rule: Rule, line: string, lineNo: int, issue: Issue) {
    && issue.line == lineNo
    && issue.message == Detected(rule)
    && issue.severity == SeverityOf(rule)
    && issue.category == CategoryOf(rule)
    && issue.score == ScoreOf(rule)
    && FirstOccurrence(line, AnchorOf(rule), issue.column)
    && (exists m :: FirstMatch(PatternOf(rule), line, m) &&
          issue.length == (if FixedLength(rule).Some? then FixedLength(rule).value else m.length))
    && 0 <= issue.column && 0 <= issue.length && issue.column + issue.length <= |line|
  }

  /** The issue a detector pushes: column from `indexOf`, length from the
      first match unless the rule fixes it. */
  function Report(rule: Rule, line: string, lineNo: int): Issue {
    var length :=
      match FixedLength(rule)
      case Some(k) => k
      case None => (match Find(PatternOf(rule), line, 0) case Some(m) => m.length case None => 0);
    Issue(lineNo, IndexOf(line, AnchorOf(rule)), length,
          SeverityOf(rule), Detected(rule), CategoryOf(rule), ScoreOf(rule))
  }

  /** The detector's test as the code runs it: the search finds a match and
      the rule is not suppressed. */
  predicate Triggered(rule: Rule, line: string) {
    Find(PatternOf(rule), line, 0).Some? && !Suppressed(rule, line)
  }

  /** One `if (match) { issues.push(...) }` block of a detector method. */
  function Detect(rule: Rule, line: string, lineNo: int): seq<Issue> {
    if Triggered(rule, line) then [Report(rule, line, lineNo)] else []
  }

  /** A detector reports exactly when its pattern occurs on the line (and,
      for `std::map`, the line does not mention `unordered_map`), and its
      report is placed at the first anchor with the first match's length. */
  lemma DetectMeans(rule: Rule, line: string, lineNo: int)
    ensures Triggered(rule, line) <==> Fires(rule, line)
    ensures Triggered(rule, line) ==> ReportOf(rule, line, lineNo, Report(rule, line, lineNo))
  {
    FindIsFirstMatch(PatternOf(rule), line);
    if Triggered(rule, line) {
      var m := Find(PatternOf(rule), line, 0).value;
      AnchorInSpan(rule, line, m.index, m.length);
      FixedLengthIsAnchor(rule);
    }
  }

  // ---------------------------------------------------------------------------
  // The three detector groups

  /** Every element of `r` is the report of a rule of `rules`. */
  predicate AllReports(r: seq<Issue>, rules: set<Rule>, line: string, lineNo: int) {
    forall i :: 0 <= i < |r| ==>
      r[i].message.Detected? && r[i].message.rule in rules && r[i] == Report(r[i].message.rule, line, lineNo)
  }

  /** The rules of the reports strictly climb in the examination order. */
  predicate RankOrdered(r: seq<Issue>) {
    forall i, j :: 0 <= i < j < |r| ==>
      r[i].message.Detected? && r[j].message.Detected? && Rank(r[i].message.rule) < Rank(r[j].message.rule)
  }

  /** A rule of `rules` is reported exactly when its detector triggers. */
  predicate Complete(r: seq<Issue>, rules: set<Rule>, line: string) {
    forall rule :: rule in rules ==>
      (Triggered(rule, line) <==> exists i :: 0 <= i < |r| && r[i].message == Detected(rule))
  }

  /** `r` holds exactly one report for each rule of `rules` that fires on the
      line and nothing else, in the order the rules are examined. */
  predicate Reports(r: seq<Issue>, rules: set<Rule>, line: string, lineNo: int) {
    AllReports(r, rules, line, lineNo) && RankOrdered(r) && Complete(r, rules, line)
  }

  lemma DetectReports(rule: Rule, line: string, lineNo: int)
    ensures Reports(Detect(rule, line, lineNo), {rule}, line, lineNo)
  {
    if Triggered(rule, line) {
      assert Detect(rule, line, lineNo)[0].message == Detected(rule);
    }
  }

  lemma AllReportsAppend(a: seq<Issue>, ra: set<Rule>, b: seq<Issue>, rb: set<Rule>, line: string, lineNo: int)
    requires AllReports(a, ra, line, lineNo) && AllReports(b, rb, line, lineNo)
    ensures AllReports(a + b, ra + rb, line, lineNo)
  {
    var r := a + b;
    forall i | 0 <= i < |r|
      ensures r[i].message.Detected? && r[i].message.rule in ra + rb && r[i] == Report(r[i].message.rule, line, lineNo)
    {
      if i < |a| { assert r[i] == a[i]; } else { assert r[i] == b[i - |a|]; }
    }
  }

  lemma RankOrderedAppend(a: seq<Issue>, ra: set<Rule>, b: seq<Issue>, rb: set<Rule>, line: string, lineNo: int, bound: int)
    requires AllReports(a, ra, line, lineNo) && AllReports(b, rb, line, lineNo)
    requires RankOrdered(a) && RankOrdered(b)
    requires forall x :: x in ra ==> Rank(x) < bound
    requires forall y :: y in rb ==> bound <= Rank(y)
    ensures RankOrdered(a + b)
  {
    var r := a + b;
    forall i, j | 0 <= i < j < |r|
      ensures r[i].message.Detected? && r[j].message.Detected? && Rank(r[i].message.rule) < Rank(r[j].message.rule)
    {
      if j < |a| {
        assert r[i] == a[i] && r[j] == a[j];
      } else if i >= |a| {
        assert r[i] == b[i - |a|] && r[j] == b[j - |a|];
      } else {
        assert r[i] == a[i] && r[j] == b[j - |a|];
      }
    }
  }

  lemma CompleteAppend(a: seq<Issue>, ra: set<Rule>, b: seq<Issue>, rb: set<Rule>, line: string)
    requires Complete(a, ra, line) && Complete(b, rb, line)
    requires forall i :: 0 <= i < |a| ==> a[i].message.Detected? && a[i].message.rule in ra
    requires forall i :: 0 <= i < |b| ==> b[i].message.Detected? && b[i].message.rule in rb
    ensures Complete(a + b, ra + rb, line)
  {
    var r := a + b;
    forall rule | rule in ra + rb
      ensures Triggered(rule, line) <==> exists i :: 0 <= i < |r| && r[i].message == Detected(rule)
    {
      if exists i :: 0 <= i < |r| && r[i].message == Detected(rule) {
        var i :| 0 <= i < |r| && r[i].message == Detected(rule);
        if i < |a| {
          assert a[i] == r[i];
        } else {
          assert b[i - |a|] == r[i];
        }
      }
      if Triggered(rule, line) {
        if rule in ra {
          var i :| 0 <= i < |a| && a[i].message == Detected(rule);
          assert r[i] == a[i];
        } else {
          var i :| 0 <= i < |b| && b[i].message == Detected(rule);
          assert r[|a| + i] == b[i];
        }
      }
    }
  }

  /** Reports for two groups of rules, the second examined after the first,
      concatenate into the report for both. */
  lemma ReportsAppend(a: seq<Issue>, ra: set<Rule>, b: seq<Issue>, rb: set<Rule>, line: string, lineNo: int, bound: int)
    requires Reports(a, ra, line, lineNo) && Reports(b, rb, line, lineNo)
    requires forall x :: x in ra ==> Rank(x) < bound
    requires forall y :: y in rb ==> bound <= Rank(y)
    ensures Reports(a + b, ra + rb, line, lineNo)
  {
    AllReportsAppend(a, ra, b, rb, line, lineNo);
    RankOrderedAppend(a, ra, b, rb, line, lineNo, bound);
    CompleteAppend(a, ra, b, rb, line);
  }

  /** What a report means: every issue is its rule's `ReportOf`, and a rule of
      `rules` is reported exactly when it fires. */
  lemma ReportsMean(r: seq<Issue>, rules: set<Rule>, line: string, lineNo: int)
    requires Reports(r, rules, line, lineNo)
    ensures forall i :: 0 <= i < |r| ==> ReportOf(r[i].message.rule, line, lineNo, r[i])
    ensures forall rule :: rule in rules ==>
      (Fires(rule, line) <==> exists i :: 0 <= i < |r| && r[i].message == Detected(rule))
  {
    forall i | 0 <= i < |r| ensures ReportOf(r[i].message.rule, line, lineNo, r[i]) {
      var rule := r[i].message.rule;
      DetectMeans(rule, line, lineNo);
      assert Triggered(rule, line);
    }
    forall rule | rule in rules
      ensures Fires(rule, line) <==> exists i :: 0 <= i < |r| && r[i].message == Detected(rule)
    {
      DetectMeans(rule, line, lineNo);
    }
  }

  /** Three detectors run one after the other. */
  lemma GroupReports(a: seq<Issue>, b: seq<Issue>, c: seq<Issue>, x: Rule, y: Rule, z: Rule, line: string, lineNo: int)
    requires Rank(x) < Rank(y) < Rank(z)
    requires Reports(a, {x}, line, lineNo) && Reports(b, {y}, line, lineNo) && Reports(c, {z}, line, lineNo)
    ensures Reports(a + b + c, {x, y, z}, line, lineNo)
  {
    ReportsAppend(a, {x}, b, {y}, line, lineNo, Rank(y));
    ReportsAppend(a + b, {x} + {y}, c, {z}, line, lineNo, Rank(z));
    assert {x} + {y} + {z} == {x, y, z};
  }

  /** Every report of a group carries the group's category. */
  lemma GroupCategory(r: seq<Issue>, rules: set<Rule>, line: string, lineNo: int, category: Category)
    requires AllReports(r, rules, line, lineNo)
    requires forall rule :: rule in rules ==> CategoryOf(rule) == category
    ensures forall i :: 0 <= i < |r| ==> r[i].category == category
  {
  }

  /** Every report of a group carries the group's severity. */
  lemma GroupSeverity(r: seq<Issue>, rules: set<Rule>, line: string, lineNo: int, severity: Severity)
    requires AllReports(r, rules, line, lineNo)
    requires forall rule :: rule in rules ==> SeverityOf(rule) == severity
    ensures forall i :: 0 <= i < |r| ==> r[i].severity == severity
  {
  }

  const MemoryRules: set<Rule> := {RawNew, RawDelete, Malloc}
  const StlRules: set<Rule> := {ListUsage, MapUsage, PushBack}
  const StringRules: set<Rule> := {StringConcat, StringByValue, StringCompare}
  const AllRules: set<Rule> := MemoryRules + StlRules + StringRules

  /** `analyzeMemoryManagement`: raw `new`, raw `delete`, `malloc(`. */
  function AnalyzeMemoryManagement(line: string, lineNo: int): seq<Issue> {
    Detect(RawNew, line, lineNo) + Detect(RawDelete, line, lineNo) + Detect(Malloc, line, lineNo)
  }

  /** The memory group reports exactly the memory rules that fire, in order,
      all of them high-severity memory-management issues. */
  lemma MemoryManagementReports(line: string, lineNo: int)
    ensures var r := AnalyzeMemoryManagement(line, lineNo);
      && Reports(r, MemoryRules, line, lineNo)
      && forall i :: 0 <= i < |r| ==> r[i].category == MemoryManagement && r[i].severity == High
  {
    var a, b, c := Detect(RawNew, line, lineNo), Detect(RawDelete, line, lineNo), Detect(Malloc, line, lineNo);
    DetectReports(RawNew, line, lineNo);
    DetectReports(RawDelete, line, lineNo);
    DetectReports(Malloc, line, lineNo);
    GroupReports(a, b, c, RawNew, RawDelete, Malloc, line, lineNo);
    GroupCategory(a + b + c, MemoryRules, line, lineNo, MemoryManagement);
    GroupSeverity(a + b + c, MemoryRules, line, lineNo, High);
  }

  /** `analyzeSTLUsage`: `std::list<…>`, `std::map<…>` unless the line
      mentions `unordered_map`, and `.push_back(`. */
  function AnalyzeStlUsage(line: string, lineNo: int): seq<Issue> {
    Detect(ListUsage, line, lineNo) + Detect(MapUsage, line, lineNo) + Detect(PushBack, line, lineNo)
  }

  /** The STL group reports exactly the STL rules that fire, in order, all of
      them STL-efficiency issues. */
  lemma StlUsageReports(line: string, lineNo: int)
    ensures var r := AnalyzeStlUsage(line, lineNo);
      && Reports(r, StlRules, line, lineNo)
      && forall i :: 0 <= i < |r| ==> r[i].category == StlEfficiency
  {
    var a, b, c := Detect(ListUsage, line, lineNo), Detect(MapUsage, line, lineNo), Detect(PushBack, line, lineNo);
    DetectReports(ListUsage, line, lineNo);
    DetectReports(MapUsage, line, lineNo);
    DetectReports(PushBack, line, lineNo);
    GroupReports(a, b, c, ListUsage, MapUsage, PushBack, line, lineNo);
    GroupCategory(a + b + c, StlRules, line, lineNo, StlEfficiency);
  }

  /** `analyzeStringOperations`: `+=` of a quoted literal, `std::string`
      parameters by value, and `.compare(`. */
  function AnalyzeStringOperations(line: string, lineNo: int): seq<Issue> {
    Detect(StringConcat, line, lineNo) + Detect(StringByValue, line, lineNo) + Detect(StringCompare, line, lineNo)
  }

  /** The string group reports exactly the string rules that fire, in order,
      all of them low-severity string-operation issues. */
  lemma StringOperationsReports(line: string, lineNo: int)
    ensures var r := AnalyzeStringOperations(line, lineNo);
      && Reports(r, StringRules, line, lineNo)
      && forall i :: 0 <= i < |r| ==> r[i].category == StringOperations && r[i].severity == Low
  {
    var a, b, c := Detect(StringConcat, line, lineNo), Detect(StringByValue, line, lineNo), Detect(StringCompare, line, lineNo);
    DetectReports(StringConcat, line, lineNo);
    DetectReports(StringByValue, line, lineNo);
    DetectReports(StringCompare, line, lineNo);
    GroupReports(a, b, c, StringConcat, StringByValue, StringCompare, line, lineNo);
    GroupCategory(a + b + c, StringRules, line, lineNo, StringOperations);
    GroupSeverity(a + b + c, StringRules, line, lineNo, Low);
  }

  /** The three groups in the order the document loop runs them. */
  function LineIssues(line: string, lineNo: int): seq<Issue> {
    AnalyzeMemoryManagement(line, lineNo) + AnalyzeStlUsage(line, lineNo) + AnalyzeStringOperations(line, lineNo)
  }

  /** A line's issues report exactly the rules that fire on it, each once, in
      the order the rules are examined. */
  lemma LineIssuesReport(line: string, lineNo: int)
    ensures Reports(LineIssues(line, lineNo), AllRules, line, lineNo)
  {
    MemoryManagementReports(line, lineNo);
    StlUsageReports(line, lineNo);
    StringOperationsReports(line, lineNo);
    LineReports(AnalyzeMemoryManagement(line, lineNo), AnalyzeStlUsage(line, lineNo),
                AnalyzeStringOperations(line, lineNo), line, lineNo);
  }

  /** The memory, STL and string groups, run in that order, report every
      rule of the analyser in the examination order. */
  lemma LineReports(a: seq<Issue>, b: seq<Issue>, c: seq<Issue>, line: string, lineNo: int)
    requires Reports(a, MemoryRules, line, lineNo)
    requires Reports(b, StlRules, line, lineNo)
    requires Reports(c, StringRules, line, lineNo)
    ensures Reports(a + b + c, AllRules, line, lineNo)
  {
    GroupRanks();
    ThreeGroups(a, MemoryRules, b, StlRules, c, StringRules, line, lineNo, 3, 6);
  }

  /** The memory rules rank below the STL rules, which rank below the
      string rules. */
  lemma GroupRanks()
    ensures forall x :: x in MemoryRules ==> Rank(x) < 3
    ensures forall x :: x in StlRules ==> 3 <= Rank(x) < 6
    ensures forall x :: x in StringRules ==> 6 <= Rank(x)
  {
  }

  lemma ThreeGroups(a: seq<Issue>, ra: set<Rule>, b: seq<Issue>, rb: set<Rule>, c: seq<Issue>, rc: set<Rule>,
                    line: string, lineNo: int, b1: int, b2: int)
    requires Reports(a, ra, line, lineNo) && Reports(b, rb, line, lineNo) && Reports(c, rc, line, lineNo)
    requires b1 <= b2 && forall x :: x in ra ==> Rank(x) < b1
    requires forall x :: x in rb ==> b1 <= Rank(x) < b2
    requires forall x :: x in rc ==> b2 <= Rank(x)
    ensures Reports(a + b + c, ra + rb + rc, line, lineNo)
  {
    ReportsAppend(a, ra, b, rb, line, lineNo, b1);
    ReportsAppend(a + b, ra + rb, c, rc, line, lineNo, b2);
  }

  lemma ReportsAtMostOnce(r: seq<Issue>, rules: set<Rule>, line: string, lineNo: int)
    requires Reports(r, rules, line, lineNo)
    ensures |r| <= 9
  {
    if |r| > 9 {
      assert Rank(r[9].message.rule) >= 9 by { RanksClimb(r, rules, line, lineNo, 9); }
      assert false;
    }
  }

  lemma {:induction false} RanksClimb(r: seq<Issue>, rules: set<Rule>, line: string, lineNo: int, i: nat)
    requires Reports(r, rules, line, lineNo) && i < |r|
    ensures Rank(r[i].message.rule) >= i
  {
    if i > 0 {
      RanksClimb(r, rules, line, lineNo, i - 1);
    }
  }

  /** A line that is empty or only whitespace gets no detector issue. */
  lemma BlankLineIsSilent(line: string, lineNo: int)
    requires AllIn(line, 0, |line|, Space)
    ensures LineIssues(line, lineNo) == []
  {
    var r := LineIssues(line, lineNo);
    LineIssuesReport(line, lineNo);
    forall rule | rule in AllRules ensures !Fires(rule, line) {
      BlankHasNoMatch(PatternOf(rule), line);
    }
    ReportsMean(r, AllRules, line, lineNo);
    if r != [] {
      assert false;
    }
  }
}
