/** The document driver, `analyzeDocument`, in its two versions. The
    JavaScript version strips comments line by line and runs the three
    detector groups on every line that is not blank after stripping. It then
    strips the whole document again from a clear state and hands the clean
    lines to the loop-nesting pass. The TypeScript version runs the detector
    groups on the raw lines and hands the raw lines to its own loop-nesting
    pass. In both versions every detector issue comes before every nesting
    issue. */
module Analyzer {
  import opened Text
  import opened Issues
  import opened Patterns
  import opened Rules
  import opened Comments
  import opened Nesting

  // ---------------------------------------------------------------------------
  // The detector pass

  /** The issues of the first `n` groups, one group after the other. */
  function Flatten(groups: seq<seq<Issue>>, n: nat): seq<Issue>
    requires n <= |groups|
  {
    if n == 0 then [] else Flatten(groups, n - 1) + groups[n - 1]
  }

  /** The issues the three detector groups push for each line. */
  function PerLine(lines: seq<string>): (groups: seq<seq<Issue>>)
    ensures |groups| == |lines|
  {
    seq(|lines|, k requires 0 <= k < |lines| => LineIssues(lines[k], k))
  }

  /** Group `k` is what the detectors push for line `k`. */
  lemma PerLineAt(lines: seq<string>, k: nat)
    requires k < |lines|
    ensures PerLine(lines)[k] == LineIssues(lines[k], k)
  {
  }

  /** Group `k` holds issues of line `k` only. */
  predicate OnTheirLines(groups: seq<seq<Issue>>) {
    forall k, l :: 0 <= k < |groups| && 0 <= l < |groups[k]| ==> groups[k][l].line == k
  }

  /** Within each group the rules climb in the examination order. */
  predicate RanksClimbInGroups(groups: seq<seq<Issue>>) {
    forall k :: 0 <= k < |groups| ==> RankOrdered(groups[k])
  }

  /** Line order, and on one line the order in which the rules are examined:
      memory, then STL, then string. */
  predicate InReadingOrder(r: seq<Issue>) {
    forall j, k :: 0 <= j < k < |r| ==>
      r[j].line < r[k].line ||
      (r[j].line == r[k].line && r[j].message.Detected? && r[k].message.Detected? &&
       Rank(r[j].message.rule) < Rank(r[k].message.rule))
  }

  /** Each issue of the first `n` groups comes from the group of its line. */
  lemma {:induction false} FlattenKeepsLines(groups: seq<seq<Issue>>, n: nat)
    requires n <= |groups| && OnTheirLines(groups)
    ensures forall j :: 0 <= j < |Flatten(groups, n)| ==>
      0 <= Flatten(groups, n)[j].line < n && Flatten(groups, n)[j] in groups[Flatten(groups, n)[j].line]
  {
    if n > 0 {
      var prev, g := Flatten(groups, n - 1), groups[n - 1];
      var r: seq<Issue> := prev + g;
      FlattenKeepsLines(groups, n - 1);
      forall j | 0 <= j < |r|
        ensures 0 <= r[j].line < n && r[j] in groups[r[j].line]
      {
        if j < |prev| {
          assert r[j] == prev[j];
        } else {
          assert r[j] == g[j - |prev|];
        }
      }
    }
  }

  /** The groups, one line after the other, come in reading order. */
  lemma {:induction false} FlattenIsInReadingOrder(groups: seq<seq<Issue>>, n: nat)
    requires n <= |groups| && OnTheirLines(groups) && RanksClimbInGroups(groups)
    ensures InReadingOrder(Flatten(groups, n))
  {
    if n > 0 {
      FlattenIsInReadingOrder(groups, n - 1);
      FlattenKeepsLines(groups, n - 1);
      AppendGroup(Flatten(groups, n - 1), groups, n - 1);
    }
  }

  lemma AppendGroup(prev: seq<Issue>, groups: seq<seq<Issue>>, i: nat)
    requires i < |groups| && OnTheirLines(groups) && RankOrdered(groups[i])
    requires InReadingOrder(prev) && forall j :: 0 <= j < |prev| ==> prev[j].line < i
    ensures InReadingOrder(prev + groups[i])
  {
    var g := groups[i];
    var r := prev + g;
    forall j, k | 0 <= j < k < |r|
      ensures r[j].line < r[k].line ||
              (r[j].line == r[k].line && r[j].message.Detected? && r[k].message.Detected? &&
               Rank(r[j].message.rule) < Rank(r[k].message.rule))
    {
      if k < |prev| {
        assert r[j] == prev[j] && r[k] == prev[k];
      } else if j < |prev| {
        assert r[j] == prev[j] && r[k] == g[k - |prev|];
      } else {
        assert r[j] == g[j - |prev|] && r[k] == g[k - |prev|];
      }
    }
  }

  /** A message shows up on line `i` of the flattened groups exactly when it
      is in group `i`. */
  lemma {:induction false} FlattenFindsGroup(groups: seq<seq<Issue>>, n: nat, i: nat, msg: Message)
    requires i < n <= |groups| && OnTheirLines(groups)
    ensures (exists j :: 0 <= j < |Flatten(groups, n)| && Flatten(groups, n)[j].line == i &&
                         Flatten(groups, n)[j].message == msg)
        <==> (exists l :: 0 <= l < |groups[i]| && groups[i][l].message == msg)
  {
    var prev, g := Flatten(groups, n - 1), groups[n - 1];
    assert Flatten(groups, n) == prev + g;
    if i < n - 1 {
      FlattenFindsGroup(groups, n - 1, i, msg);
      FoundBeforeLast(prev, g, i, msg);
    } else {
      FlattenKeepsLines(groups, n - 1);
      FoundInLast(prev, g, i, msg);
    }
  }

  /** A message on a line other than the last group's is found before it. */
  lemma FoundBeforeLast(prev: seq<Issue>, g: seq<Issue>, i: int, msg: Message)
    requires forall l :: 0 <= l < |g| ==> g[l].line != i
    ensures (exists j :: 0 <= j < |prev + g| && (prev + g)[j].line == i && (prev + g)[j].message == msg)
        <==> (exists j :: 0 <= j < |prev| && prev[j].line == i && prev[j].message == msg)
  {
    var r := prev + g;
    if exists j :: 0 <= j < |r| && r[j].line == i && r[j].message == msg {
      var j :| 0 <= j < |r| && r[j].line == i && r[j].message == msg;
      assert prev[j] == r[j];
    }
    if exists j :: 0 <= j < |prev| && prev[j].line == i && prev[j].message == msg {
      var j :| 0 <= j < |prev| && prev[j].line == i && prev[j].message == msg;
      assert r[j] == prev[j];
    }
  }

  /** A message on the last group's line is found in the last group. */
  lemma FoundInLast(prev: seq<Issue>, g: seq<Issue>, i: int, msg: Message)
    requires forall j :: 0 <= j < |prev| ==> prev[j].line != i
    requires forall l :: 0 <= l < |g| ==> g[l].line == i
    ensures (exists j :: 0 <= j < |prev + g| && (prev + g)[j].line == i && (prev + g)[j].message == msg)
        <==> (exists l :: 0 <= l < |g| && g[l].message == msg)
  {
    var r := prev + g;
    if exists j :: 0 <= j < |r| && r[j].line == i && r[j].message == msg {
      var j :| 0 <= j < |r| && r[j].line == i && r[j].message == msg;
      assert g[j - |prev|] == r[j];
    }
    if exists l :: 0 <= l < |g| && g[l].message == msg {
      var l :| 0 <= l < |g| && g[l].message == msg;
      assert r[|prev| + l] == g[l];
    }
  }

  /** The groups of a document hold issues of their own line, in the order
      the rules are examined. */
  lemma PerLineIsOrdered(lines: seq<string>)
    ensures OnTheirLines(PerLine(lines)) && RanksClimbInGroups(PerLine(lines))
  {
    var groups := PerLine(lines);
    forall k | 0 <= k < |groups|
      ensures RankOrdered(groups[k]) && forall l :: 0 <= l < |groups[k]| ==> groups[k][l].line == k
    {
      LineIssuesReport(lines[k], k);
    }
  }

  /** Each issue of the group of line `k` is its rule's report on the line. */
  lemma PerLineReports(lines: seq<string>, k: nat)
    requires k < |lines|
    ensures var g := PerLine(lines)[k];
      forall l :: 0 <= l < |g| ==> g[l].message.Detected? && ReportOf(g[l].message.rule, lines[k], k, g[l])
  {
    PerLineAt(lines, k);
    LineIssuesReport(lines[k], k);
    ReportsMean(LineIssues(lines[k], k), AllRules, lines[k], k);
  }

  /** Group `k` holds a report of `rule` exactly when the rule fires on
      line `k`. */
  lemma PerLineFires(lines: seq<string>, k: nat, rule: Rule)
    requires k < |lines|
    ensures var g := PerLine(lines)[k];
      Fires(rule, lines[k]) <==> exists l :: 0 <= l < |g| && g[l].message == Detected(rule)
  {
    PerLineAt(lines, k);
    LineIssuesReport(lines[k], k);
    ReportsMean(LineIssues(lines[k], k), AllRules, lines[k], k);
    EveryRuleIsExamined();
  }

  /** Every rule belongs to one of the three groups. */
  lemma EveryRuleIsExamined()
    ensures forall rule :: rule in AllRules
  {
    forall rule ensures rule in AllRules {
      match rule
      case RawNew => case RawDelete => case Malloc =>
      case ListUsage => case MapUsage => case PushBack =>
      case StringConcat => case StringByValue => case StringCompare =>
    }
  }

  // ---------------------------------------------------------------------------
  // The JavaScript version

  /** The detector issues of a document's lines: each line's groups, one
      line after the other. */
  function Detections(lines: seq<string>): seq<Issue> {
    Flatten(PerLine(lines), |lines|)
  }

  /** What `analyzeDocument` returns for the lines of a document: the
      detector issues of the clean lines, then the nesting issues of the
      clean lines. The code skips the lines that are blank once stripped;
      they have no detector issue anyway (see `AnalyzeDocument`). */
  function Analysis(lines: seq<string>): seq<Issue> {
    var clean := CleanLines(lines);
    Detections(clean) + Track(ScanJs(clean), |clean|).issues
  }

  /** `analyzeDocument` of the JavaScript version, on the document's text. */
  method AnalyzeDocument(text: string) returns (issues: seq<Issue>)
    ensures issues == Analysis(SplitLines(text))
  {
    var lines := SplitLines(text);
    var inBlockComment := new BlockCommentFlag(false);
    issues := DetectAll(lines, inBlockComment);
    inBlockComment.value := false;
    var cleanLines := CleanAll(lines, inBlockComment);
    var nesting := AnalyzeLoopNesting(cleanLines);
    issues := issues + nesting;
  }

  /** The first loop of `analyzeDocument`: strip each line in turn with the
      shared flag, skip it when it is blank once stripped, and run the
      memory, STL and string detectors on it otherwise. */
  method DetectAll(lines: seq<string>, inBlockComment: BlockCommentFlag) returns (issues: seq<Issue>)
    requires !inBlockComment.value
    modifies inBlockComment
    ensures issues == Detections(CleanLines(lines))
  {
    issues := [];
    for i := 0 to |lines|
      invariant inBlockComment.value == StateBefore(lines, i)
      invariant issues == Flatten(PerLine(CleanLines(lines)), i)
    {
      var found := DetectLine(lines, i, inBlockComment);
      issues := issues + found;
    }
  }

  /** One turn of that loop: strip line `i`, and unless it is then blank run
      the three detectors on it, in order. */
  method DetectLine(lines: seq<string>, i: nat, inBlockComment: BlockCommentFlag) returns (found: seq<Issue>)
    requires i < |lines| && inBlockComment.value == StateBefore(lines, i)
    modifies inBlockComment
    ensures inBlockComment.value == StateBefore(lines, i + 1)
    ensures found == PerLine(CleanLines(lines))[i]
  {
    var line := StripNext(lines, i, inBlockComment);
    PerLineAt(CleanLines(lines), i);
    found := [];
    if |Trim(line)| == 0 {
      BlankLineIsSilent(line, i);
      return;
    }
    found := found + AnalyzeMemoryManagement(line, i);
    found := found + AnalyzeStlUsage(line, i);
    found := found + AnalyzeStringOperations(line, i);
    Regroup([], AnalyzeMemoryManagement(line, i), AnalyzeStlUsage(line, i), AnalyzeStringOperations(line, i));
  }

  /** Helper: appending three groups one after the other appends their
      concatenation. */
  lemma Regroup(before: seq<Issue>, a: seq<Issue>, b: seq<Issue>, c: seq<Issue>)
    ensures before + a + b + c == before + (a + b + c)
  {
  }

  /** `lines.map(line => stripComments(line, inBlockComment))`: the callback
      strips the lines in order with the one shared flag. */
  method CleanAll(lines: seq<string>, inBlockComment: BlockCommentFlag) returns (cleanLines: seq<string>)
    requires !inBlockComment.value
    modifies inBlockComment
    ensures cleanLines == CleanLines(lines)
  {
    cleanLines := [];
    for i := 0 to |lines|
      invariant inBlockComment.value == StateBefore(lines, i)
      invariant cleanLines == CleanPrefix(lines, i)
    {
      var line := StripNext(lines, i, inBlockComment);
      cleanLines := cleanLines + [line];
    }
    CleanPrefixIsCleanLines(lines);
  }

  /** `stripComments(lines[i], inBlockComment)` with the flag as the lines
      before left it: line `i` comes out clean and the flag is ready for the
      next line. */
  method StripNext(lines: seq<string>, i: nat, inBlockComment: BlockCommentFlag) returns (line: string)
    requires i < |lines| && inBlockComment.value == StateBefore(lines, i)
    modifies inBlockComment
    ensures line == CleanLine(lines, i) && inBlockComment.value == StateBefore(lines, i + 1)
  {
    line := StripComments(lines[i], inBlockComment);
  }

  /** The first `n` clean lines, one after the other. */
  function CleanPrefix(lines: seq<string>, n: nat): seq<string>
    requires n <= |lines|
  {
    if n == 0 then [] else CleanPrefix(lines, n - 1) + [CleanLine(lines, n - 1)]
  }

  lemma CleanPrefixIsCleanLines(lines: seq<string>)
    ensures CleanPrefix(lines, |lines|) == CleanLines(lines)
  {
    var clean := CleanLines(lines);
    CleanPrefixIsPrefix(lines, clean, |lines|);
    assert clean[..|lines|] == clean;
  }

  /** The first `n` clean lines are the first `n` elements of any sequence
      that holds the clean lines. */
  lemma {:induction false} CleanPrefixIsPrefix(lines: seq<string>, clean: seq<string>, n: nat)
    requires n <= |lines| == |clean| && forall k :: 0 <= k < |lines| ==> clean[k] == CleanLine(lines, k)
    ensures CleanPrefix(lines, n) == clean[..n]
  {
    if n > 0 {
      CleanPrefixIsPrefix(lines, clean, n - 1);
      assert clean[..n] == clean[..n - 1] + [clean[n - 1]];
    }
  }

  /** Line `k` of the nesting pass sees the clean line `k` itself and
      examines it exactly when it is not blank. */
  lemma NestingSeesCleanLines(lines: seq<string>, k: nat)
    requires k < |lines|
    ensures var clean := CleanLines(lines);
      ScanJs(clean)[k] == Scanned(clean[k], LoopMatches(clean[k], 0), Trim(clean[k]) != [])
  {
    RestripIsIdentity(lines);
    var clean := CleanLines(lines);
    assert CleanLine(clean, k) == CleanLines(clean)[k];
  }

  /** The detector issues come first, in reading order; the nesting issues
      follow, line by line. */
  lemma AnalysisOrder(lines: seq<string>)
    ensures var d := Detections(CleanLines(lines));
      && Analysis(lines) == d + Track(ScanJs(CleanLines(lines)), |lines|).issues
      && InReadingOrder(d)
      && (forall j :: |d| <= j < |Analysis(lines)| ==>
            !Analysis(lines)[j].message.Detected? && Analysis(lines)[j].category == AlgorithmicComplexity)
      && LinesAscend(Analysis(lines)[|d|..])
  {
    var clean := CleanLines(lines);
    var d, t := Detections(clean), Track(ScanJs(clean), |lines|).issues;
    PerLineIsOrdered(clean);
    FlattenIsInReadingOrder(PerLine(clean), |lines|);
    TrackIssues(ScanJs(clean), |lines|);
    TrackLinesAscend(ScanJs(clean), |lines|);
    NestingPart(d, t);
  }

  /** The nesting issues, appended after the detector issues, keep their
      order and their classification. */
  lemma NestingPart(d: seq<Issue>, t: seq<Issue>)
    requires forall j :: 0 <= j < |t| ==> t[j].message.DoubleLoop? || t[j].message.DeepLoop?
    requires forall j :: 0 <= j < |t| ==> t[j].category == AlgorithmicComplexity
    ensures (d + t)[|d|..] == t
    ensures forall j :: |d| <= j < |d + t| ==> !(d + t)[j].message.Detected? && (d + t)[j].category == AlgorithmicComplexity
  {
    var r := d + t;
    assert r[|d|..] == t;
    forall j | |d| <= j < |r| ensures !r[j].message.Detected? && r[j].category == AlgorithmicComplexity {
      assert r[j] == t[j - |d|];
    }
  }

  /** A rule is reported on a line exactly when it fires on the clean line. */
  lemma AnalysisDetectsFiringRules(lines: seq<string>, i: nat, rule: Rule)
    requires i < |lines|
    ensures Fires(rule, CleanLine(lines, i)) <==>
      exists j :: 0 <= j < |Analysis(lines)| && Analysis(lines)[j].line == i &&
                  Analysis(lines)[j].message == Detected(rule)
  {
    var clean := CleanLines(lines);
    DetectionsFindFiringRules(clean, i, rule);
    TrackIssues(ScanJs(clean), |clean|);
    FoundAmongDetections(Analysis(lines), Detections(clean), Track(ScanJs(clean), |clean|).issues, ScanJs(clean), i, Detected(rule));
  }

  /** Among the detector issues, a rule is reported on a line exactly when
      it fires on that line. */
  lemma DetectionsFindFiringRules(lines: seq<string>, i: nat, rule: Rule)
    requires i < |lines|
    ensures Fires(rule, lines[i]) <==>
      exists j :: 0 <= j < |Detections(lines)| && Detections(lines)[j].line == i &&
                  Detections(lines)[j].message == Detected(rule)
  {
    PerLineIsOrdered(lines);
    FoundInGroup(Detections(lines), PerLine(lines), |lines|, i, Detected(rule));
    PerLineFires(lines, i, rule);
  }

  /** `FlattenFindsGroup`, for a sequence known to be the flattening. */
  lemma FoundInGroup(d: seq<Issue>, groups: seq<seq<Issue>>, n: nat, i: nat, msg: Message)
    requires i < n <= |groups| && OnTheirLines(groups) && d == Flatten(groups, n)
    ensures (exists j :: 0 <= j < |d| && d[j].line == i && d[j].message == msg) <==>
            (exists l :: 0 <= l < |groups[i]| && groups[i][l].message == msg)
  {
    FlattenFindsGroup(groups, n, i, msg);
  }

  /** A detector message on a line is found in the whole result exactly when
      it is found among the detector issues. */
  lemma FoundAmongDetections(r: seq<Issue>, d: seq<Issue>, t: seq<Issue>, scanned: seq<Scanned>, i: int, msg: Message)
    requires r == d + t && msg.Detected? && IssuesOn(t, scanned, |scanned|)
    ensures (exists j :: 0 <= j < |r| && r[j].line == i && r[j].message == msg) <==>
            (exists j :: 0 <= j < |d| && d[j].line == i && d[j].message == msg)
  {
    if exists j :: 0 <= j < |r| && r[j].line == i && r[j].message == msg {
      var j :| 0 <= j < |r| && r[j].line == i && r[j].message == msg;
      assert d[j] == r[j];
    }
    if exists j :: 0 <= j < |d| && d[j].line == i && d[j].message == msg {
      var j :| 0 <= j < |d| && d[j].line == i && d[j].message == msg;
      assert r[j] == d[j];
    }
  }

  /** A detector issue of the first `n` lines stays within its line. */
  lemma DetectionIsPlaced(lines: seq<string>, j: nat)
    requires j < |Detections(lines)|
    ensures PlacedIn(Detections(lines)[j], lines)
  {
    var groups := PerLine(lines);
    var issue := Detections(lines)[j];
    PerLineIsOrdered(lines);
    FlattenKeepsLines(groups, |lines|);
    var g := groups[issue.line];
    var l :| 0 <= l < |g| && g[l] == issue;
    PerLineReports(lines, issue.line);
  }

  /** Every detector issue stays within its line. */
  lemma DetectionsArePlaced(lines: seq<string>)
    ensures forall j :: 0 <= j < |Detections(lines)| ==> PlacedIn(Detections(lines)[j], lines)
  {
    forall j | 0 <= j < |Detections(lines)| ensures PlacedIn(Detections(lines)[j], lines) {
      DetectionIsPlaced(lines, j);
    }
  }

  /** Nesting issues that highlight loop heads of their lines stay within
      those lines. */
  lemma NestingIssuesArePlaced(t: seq<Issue>, scanned: seq<Scanned>, texts: seq<string>)
    requires |scanned| == |texts| && forall k :: 0 <= k < |scanned| ==> scanned[k].text == texts[k]
    requires forall j :: 0 <= j < |t| ==>
      var issue := t[j];
      && 0 <= issue.line < |scanned| && 0 <= issue.column && 0 <= issue.length
      && IsHead(scanned[issue.line].text, Match(issue.column, issue.length))
    ensures forall j :: 0 <= j < |t| ==> PlacedIn(t[j], texts)
  {
  }

  /** The JavaScript nesting pass scans the clean lines themselves. */
  lemma ScanJsTexts(lines: seq<string>)
    ensures forall k :: 0 <= k < |lines| ==> ScanJs(CleanLines(lines))[k].text == CleanLines(lines)[k]
  {
    forall k | 0 <= k < |lines| ensures ScanJs(CleanLines(lines))[k].text == CleanLines(lines)[k] {
      NestingSeesCleanLines(lines, k);
    }
  }

  /** The TypeScript nesting pass scans the raw lines. */
  lemma ScanTsTexts(lines: seq<string>)
    ensures forall k :: 0 <= k < |lines| ==> ScanTs(lines)[k].text == lines[k]
  {
  }

  /** No clean line is longer than its raw line. */
  lemma CleanLinesAreShorter(lines: seq<string>)
    ensures forall k :: 0 <= k < |lines| ==> |CleanLines(lines)[k]| <= |lines[k]|
  {
    CleanLinesAreClean(lines);
  }

  /** Two placed parts make a placed whole, and what is placed in lines stays
      placed in lines that are no shorter. */
  lemma AppendIsPlaced(r: seq<Issue>, d: seq<Issue>, t: seq<Issue>, short: seq<string>, long: seq<string>)
    requires r == d + t && |short| == |long|
    requires forall k :: 0 <= k < |long| ==> |short[k]| <= |long[k]|
    requires forall j :: 0 <= j < |d| ==> PlacedIn(d[j], short)
    requires forall j :: 0 <= j < |t| ==> PlacedIn(t[j], short)
    ensures forall j :: 0 <= j < |r| ==> PlacedIn(r[j], short) && PlacedIn(r[j], long)
  {
    forall j | 0 <= j < |r| ensures PlacedIn(r[j], short) && PlacedIn(r[j], long) {
      if j < |d| {
        assert r[j] == d[j];
      } else {
        assert r[j] == t[j - |d|];
      }
    }
  }

  /** Every issue lies on a line of the document and its highlight stays
      within that line, clean or raw. */
  lemma AnalysisIsPlaced(lines: seq<string>)
    ensures forall j :: 0 <= j < |Analysis(lines)| ==>
      PlacedIn(Analysis(lines)[j], CleanLines(lines)) && PlacedIn(Analysis(lines)[j], lines)
  {
    var clean := CleanLines(lines);
    var d, t := Detections(clean), Track(ScanJs(clean), |clean|).issues;
    DetectionsArePlaced(clean);
    ScansFindHeads(clean);
    TrackReportsHeads(ScanJs(clean), |clean|);
    ScanJsTexts(lines);
    NestingIssuesArePlaced(t, ScanJs(clean), clean);
    CleanLinesAreShorter(lines);
    AppendIsPlaced(Analysis(lines), d, t, clean, lines);
  }

  /** No detector issue lands on a line that is blank. */
  lemma BlankLineHasNoDetection(lines: seq<string>, i: nat)
    requires i < |lines| && Trim(lines[i]) == []
    ensures forall j :: 0 <= j < |Detections(lines)| ==> Detections(lines)[j].line != i
  {
    var groups := PerLine(lines);
    var d := Detections(lines);
    PerLineIsOrdered(lines);
    FlattenKeepsLines(groups, |lines|);
    BlankLineIsSilent(lines[i], i);
    assert groups[i] == [];
  }

  /** A line that is blank once comments are stripped gets no issue at all,
      neither from the detectors nor from the nesting pass. */
  lemma BlankCleanLineIsSilent(lines: seq<string>, i: nat)
    requires i < |lines| && Trim(CleanLine(lines, i)) == []
    ensures forall j :: 0 <= j < |Analysis(lines)| ==> Analysis(lines)[j].line != i
  {
    var clean := CleanLines(lines);
    BlankLineHasNoDetection(clean, i);
    TrackIssues(ScanJs(clean), |clean|);
    NestingSeesCleanLines(lines, i);
    AppendAvoidsLine(Analysis(lines), Detections(clean), Track(ScanJs(clean), |clean|).issues, ScanJs(clean), i);
  }

  /** Detector issues that avoid a line, followed by nesting issues of a pass
      that did not examine it, avoid that line. */
  lemma AppendAvoidsLine(r: seq<Issue>, d: seq<Issue>, t: seq<Issue>, scanned: seq<Scanned>, i: nat)
    requires r == d + t && forall j :: 0 <= j < |d| ==> d[j].line != i
    requires i < |scanned| && !scanned[i].examined && IssuesOn(t, scanned, |scanned|)
    ensures forall j :: 0 <= j < |r| ==> r[j].line != i
  {
    forall j | 0 <= j < |r| ensures r[j].line != i {
      if j < |d| {
        assert r[j] == d[j];
      } else {
        assert r[j] == t[j - |d|];
      }
    }
  }

  /** A line that starts inside a block comment and does not close it is
      silent, whatever it says. */
  lemma LineInsideBlockCommentIsSilent(lines: seq<string>, i: nat)
    requires i < |lines| && StateBefore(lines, i) && !Contains(lines[i], "*/")
    ensures forall j :: 0 <= j < |Analysis(lines)| ==> Analysis(lines)[j].line != i
  {
    BlankCleanLineIsSilent(lines, i);
  }

  /** A line outside any block comment whose code, after leading whitespace,
      starts with `//` (and that holds no block-comment opener) is silent. */
  lemma CommentedOutLineIsSilent(lines: seq<string>, i: nat, indent: string, rest: string)
    requires i < |lines| && !StateBefore(lines, i)
    requires lines[i] == indent + "//" + rest && AllIn(indent, 0, |indent|, Space)
    requires !Contains(lines[i], "/*")
    ensures forall j :: 0 <= j < |Analysis(lines)| ==> Analysis(lines)[j].line != i
  {
    var line := lines[i];
    RemoveBlocksIsClean(line);
    var c := CutLineComment(line);
    assert HasAt(line, |indent|, "//") by {
      assert line[|indent|..|indent| + 2] == "//";
    }
    assert AllIn(c, 0, |c|, Space) by {
      forall k | 0 <= k < |c| ensures InClass(c[k], Space) {
        assert c[k] == line[k] == indent[k];
        assert InClass(indent[k], Space);
      }
    }
    assert CleanLine(lines, i) == c;
    BlankCleanLineIsSilent(lines, i);
  }

  // ---------------------------------------------------------------------------
  // The TypeScript version

  /** What the TypeScript `analyzeDocument` returns for the lines of a
      document: the detector issues of the raw lines, then the nesting issues
      of the raw lines. */
  function AnalysisTs(lines: seq<string>): seq<Issue> {
    Detections(lines) + Track(ScanTs(lines), |lines|).issues
  }

  /** `analyzeDocument` of the TypeScript version, on the document's text. */
  method AnalyzeDocumentTs(text: string) returns (issues: seq<Issue>)
    ensures issues == AnalysisTs(SplitLines(text))
  {
    var lines := SplitLines(text);
    issues := DetectAllTs(lines);
    var nesting := AnalyzeLoopNestingTs(lines);
    issues := issues + nesting;
  }

  /** The first loop of the TypeScript `analyzeDocument`: the memory, STL
      and string detectors on every raw line. */
  method DetectAllTs(lines: seq<string>) returns (issues: seq<Issue>)
    ensures issues == Detections(lines)
  {
    issues := [];
    var n := |lines|;
    for i := 0 to n
      invariant issues == Flatten(PerLine(lines), i)
    {
      issues := DetectLineTs(lines, i, issues);
    }
  }

  /** One turn of that loop: the three detectors on the raw line `i`, in
      order, each pushing onto the issues found so far. */
  method DetectLineTs(lines: seq<string>, i: nat, issues0: seq<Issue>) returns (issues: seq<Issue>)
    requires i < |lines| && issues0 == Flatten(PerLine(lines), i)
    ensures issues == Flatten(PerLine(lines), i + 1)
  {
    var line := lines[i];
    PerLineAt(lines, i);
    issues := issues0;
    issues := issues + AnalyzeMemoryManagement(line, i);
    issues := issues + AnalyzeStlUsage(line, i);
    issues := issues + AnalyzeStringOperations(line, i);
    Regroup(issues0, AnalyzeMemoryManagement(line, i), AnalyzeStlUsage(line, i), AnalyzeStringOperations(line, i));
  }

  /** In the TypeScript version the detectors see every raw line, comments
      included: a rule is reported on a line exactly when it fires on it. */
  lemma AnalysisTsDetectsFiringRules(lines: seq<string>, i: nat, rule: Rule)
    requires i < |lines|
    ensures Fires(rule, lines[i]) <==>
      exists j :: 0 <= j < |AnalysisTs(lines)| && AnalysisTs(lines)[j].line == i &&
                  AnalysisTs(lines)[j].message == Detected(rule)
  {
    DetectionsFindFiringRules(lines, i, rule);
    TrackIssues(ScanTs(lines), |lines|);
    FoundAmongDetections(AnalysisTs(lines), Detections(lines), Track(ScanTs(lines), |lines|).issues, ScanTs(lines), i, Detected(rule));
  }

  /** The TypeScript nesting pass skips a line that is blank or starts with a
      comment opener: no nesting issue lands on it. */
  lemma SkippedLineHasNoLoopIssueTs(lines: seq<string>, i: nat)
    requires i < |lines| && SkippedTs(lines[i])
    ensures forall j :: |Detections(lines)| <= j < |AnalysisTs(lines)| ==> AnalysisTs(lines)[j].line != i
  {
    TrackIssues(ScanTs(lines), |lines|);
    assert !ScanTs(lines)[i].examined;
    NestingAvoidsLine(Detections(lines), Track(ScanTs(lines), |lines|).issues, ScanTs(lines), i);
  }

  /** Nesting issues, appended after the detector issues, avoid a line the
      nesting pass did not examine. */
  lemma NestingAvoidsLine(d: seq<Issue>, t: seq<Issue>, scanned: seq<Scanned>, i: nat)
    requires i < |scanned| && !scanned[i].examined && IssuesOn(t, scanned, |scanned|)
    ensures forall j :: |d| <= j < |d + t| ==> (d + t)[j].line != i
  {
    var r := d + t;
    forall j | |d| <= j < |r| ensures r[j].line != i {
      assert r[j] == t[j - |d|];
    }
  }

  /** In the TypeScript version too the detector issues come first, in
      reading order, and the nesting issues follow line by line. */
  lemma AnalysisTsOrder(lines: seq<string>)
    ensures var d := Detections(lines);
      && InReadingOrder(d)
      && (forall j :: |d| <= j < |AnalysisTs(lines)| ==>
            !AnalysisTs(lines)[j].message.Detected? && AnalysisTs(lines)[j].category == AlgorithmicComplexity)
      && LinesAscend(AnalysisTs(lines)[|d|..])
  {
    var d, t := Detections(lines), Track(ScanTs(lines), |lines|).issues;
    PerLineIsOrdered(lines);
    FlattenIsInReadingOrder(PerLine(lines), |lines|);
    TrackIssues(ScanTs(lines), |lines|);
    TrackLinesAscend(ScanTs(lines), |lines|);
    NestingPart(d, t);
  }

  /** Every issue of the TypeScript version stays within its raw line. */
  lemma AnalysisTsIsPlaced(lines: seq<string>)
    ensures forall j :: 0 <= j < |AnalysisTs(lines)| ==> PlacedIn(AnalysisTs(lines)[j], lines)
  {
    var d, t := Detections(lines), Track(ScanTs(lines), |lines|).issues;
    DetectionsArePlaced(lines);
    ScansFindHeads(lines);
    TrackReportsHeads(ScanTs(lines), |lines|);
    ScanTsTexts(lines);
    NestingIssuesArePlaced(t, ScanTs(lines), lines);
    AppendIsPlaced(AnalysisTs(lines), d, t, lines, lines);
  }
}
