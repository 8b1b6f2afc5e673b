# C/C++ energy linter: a verified model of the scanning core

This project models the analysis engine of a VS Code extension that flags
energy-hungry C/C++ idioms. The engine takes the text of a document and
returns a list of `EnergyIssue` records, each with a line, column, length,
severity, message, category and score. It has four parts.

- **The comment stripper** (`stripComments`). It removes `/* … */` spans and
  `//` comments from one line. One boolean box, "inside an unterminated block
  comment", is threaded from line to line and updated in place.
- **Nine single-line detectors**, in three groups:
  - memory: raw `new`, raw `delete`, `malloc(`;
  - STL: `std::list<…>`, `std::map<…>` (unless the line mentions
    `unordered_map`), `.push_back(`;
  - string: `+=` of a quoted literal, `std::string` parameters by value,
    `.compare(`.

  A detector reports at most once per line. Its column is the first index of
  a fixed anchor substring. Its length is either the length of the first
  regex match or a constant.
- **The loop-nesting tracker** (`analyzeLoopNesting`), a whole-document stack
  machine:
  - it pushes one entry per `for (` or `while (` head;
  - it classifies the height after each push: 2 is medium with score 6;
    3 or more is high with score `min(10, 7 + level)`;
  - it pops one entry per `}` while the stack is non-empty;
  - it ignores `{`.
- **The document driver** (`analyzeDocument`). It splits the text on `'\n'`,
  runs the detectors line by line, then appends the nesting issues.

The repository carries two versions of the engine, and both are modelled.
They share the detectors.

- `out/extension.js` (the compiled, newer one) strips comments. Its driver
  skips lines that are blank once stripped. It then strips the whole document
  again from a clear state and gives the clean lines to the tracker, which
  strips them a third time and skips blank ones.
- `src/extension.ts` (the older one) runs the detectors on the raw lines. Its
  tracker skips lines whose trimmed text is empty or starts with `//` or `/*`.

Modules:

- `Text`: strings as `seq<char>`, and the JavaScript primitives `indexOf`,
  `includes`, `trim` and `split('\n')`.
- `Issues`: the issue record, with the message as a tag.
- `Patterns`: the ten regular expressions. Each one is written twice:
  - as a matcher that computes the length of the match the backtracking engine
    finds at a position;
  - as a declarative language, `Spans`.

  The lemmas prove that the matcher is the longest span and that `Find` is the
  leftmost-longest match that `match(...)[0]` and `exec` return.
- `Rules`: the detector table and the three detector groups.
- `Comments`: the stripper, both as a function and as a method over the
  mutable `BlockCommentFlag` box.
- `Nesting`: the tracker, as a specification (`Track`) and as the imperative
  loops of both versions.
- `Analyzer`: both drivers, as imperative methods proved against the
  functions `Analysis` and `AnalysisTs`, with the document-level properties.

The model follows the code in four places where a reader might expect
something else.

- Each detector reports at most once per line, not once per match.
- The container patterns are `std::list<.*>` and `std::map<.*>`, not bare
  `list<`/`map<`.
- Cutting out a block comment can glue a `/` onto a following `*` and make a
  new opener, so `//****/**` opens a block comment. `JunctionOpensBlock`
  shows this; `StripLineLexes` shows that only lines with `//*` are affected.
- The JavaScript tracker strips the already clean lines again. This is
  harmless: `RestripIsIdentity` proves that re-stripping changes nothing.

Columns are positions in the line the detectors see. In the JavaScript version
that is the clean line, so columns index the clean line even though the host
highlights the raw one. `AnalysisIsPlaced` shows that the highlight still fits
inside the raw line, because a clean line is never longer.

A detector's column comes from `indexOf` of its anchor. It can therefore lie
before the match: in `renew; new x`, the column is that of `new` inside
`renew`. The model keeps this. `ReportOf` states the column as the first
occurrence of the anchor, separately from the first match.

## Model

| member | source | states |
|---|---|---|
| Text.IndexOfFrom | out/extension.js:81 | `indexOf(pat, from)`: -1 or an occurrence at or after `from`, with no occurrence between `from` and the result |
| Text.IndexOf | out/extension.js:69 | `indexOf(pat)`: -1 or an occurrence, with none before it |
| Text.FirstOccurrenceIsIndexOf | out/extension.js:69 | the first occurrence of a pattern is exactly what `indexOf` returns |
| Text.Contains | out/extension.js:254 | `includes(pat)` holds exactly when some occurrence exists |
| Text.Trim | out/extension.js:111 | `trim()` removes exactly the leading and trailing whitespace run; the result is empty exactly when the line is all whitespace |
| Text.TrimEnd | out/extension.js:111 | the trailing part `trim()` removes is whitespace, and what remains ends in a non-space |
| Text.Run | out/extension.js:131 | a greedy `\w+` / `\s*` run stays inside the string |
| Text.RunIsMaximal | out/extension.js:131 | the greedy run covers only characters of its class and stops at the end or at a character outside it |
| Text.RunStopsAt | out/extension.js:131 | a run of class characters that ends at the end or at a non-class character is the greedy run |
| Text.SpaceIsNotWord | out/extension.js:131 | whitespace is never a word character, so `\s` and `\w` runs do not overlap |
| Text.LastIn | out/extension.js:238 | the greedy `.*` backs off to the last closing character before the end of the line |
| Text.CountChar | out/extension.js:227 | `(line.match(/\}/g) \|\| []).length` is the number of `}` on the line |
| Text.SplitLines | out/extension.js:103 | `text.split('\n')` yields at least one line, none holding `'\n'`, and joining them with `'\n'` gives the text back |
| Text.SplitJoin | out/extension.js:103 | splitting a join of newline-free lines gives those lines back |
| Patterns.SpacesThen | out/extension.js:161 | `\s*(` matches inside the line |
| Patterns.AnyThen | out/extension.js:238 | `.*>` matches inside the line |
| Patterns.SpacesWord | out/extension.js:131 | `\s+\w+` matches inside the line |
| Patterns.Quoted | out/extension.js:288 | `\s*["'].*["']` matches inside the line |
| Patterns.PlusEquals | out/extension.js:288 | `\s*\+=\s*["'].*["']` matches inside the line |
| Patterns.ParamName | out/extension.js:303 | `\s+\w+\s*\)` matches inside the line |
| Patterns.KeywordWord | out/extension.js:131-146 | `\bnew\s+\w+` and `\bdelete\s+\w+` match a non-empty span inside the line |
| Patterns.KeywordCall | out/extension.js:161 | `\bmalloc\s*\(` matches a non-empty span inside the line |
| Patterns.Container | out/extension.js:238-253 | `std::list<.*>` and `std::map<.*>` match a non-empty span inside the line |
| Patterns.PushBackAt | out/extension.js:268 | `\.push_back\s*\(` matches a non-empty span inside the line |
| Patterns.ConcatAt | out/extension.js:288 | `\w+\s*\+=\s*["'].*["']` matches a non-empty span inside the line |
| Patterns.StringParamAt | out/extension.js:303 | `\bstd::string\s+\w+\s*\)` matches a non-empty span inside the line |
| Patterns.CompareAt | out/extension.js:318 | `\w+\.compare\s*\(` matches a non-empty span inside the line |
| Patterns.LoopHeadAt | out/extension.js:191 | `\b(for\|while)\s*\(` matches a non-empty span inside the line |
| Patterns.MatchAt | out/extension.js:131-318 | the match of any of the ten patterns at a position is non-empty and inside the line |
| Patterns.SpacesThenSound | out/extension.js:161 | what the `\s*(` matcher returns is a span of `\s*(` |
| Patterns.AnyThenSound | out/extension.js:238 | what the `.*>` matcher returns is a span of `.*>` |
| Patterns.SpacesWordSound | out/extension.js:131 | what the `\s+\w+` matcher returns is a span of `\s+\w+` |
| Patterns.QuotedSound | out/extension.js:288 | what the quoted-literal matcher returns is a span of `\s*["'].*["']` |
| Patterns.PlusEqualsSound | out/extension.js:288 | what the `+=` matcher returns is a span of `\s*\+=\s*["'].*["']` |
| Patterns.ParamNameSound | out/extension.js:303 | what the parameter matcher returns is a span of `\s+\w+\s*\)` |
| Patterns.KeywordWordSound | out/extension.js:131-146 | what the `new`/`delete` matcher returns is a span of `\bkw\s+\w+` |
| Patterns.KeywordCallSound | out/extension.js:161 | what the `malloc` matcher returns is a span of `\bkw\s*\(` |
| Patterns.ContainerSound | out/extension.js:238-253 | what the container matcher returns is a span of `open.*>` |
| Patterns.ConcatSound | out/extension.js:288 | what the concatenation matcher returns is a span of the concatenation pattern |
| Patterns.StringParamSound | out/extension.js:303 | what the `std::string` matcher returns is a span of the by-value pattern |
| Patterns.CompareSound | out/extension.js:318 | what the `.compare` matcher returns is a span of `\w+\.compare\s*\(` |
| Patterns.LoopHeadSound | out/extension.js:191 | what the loop matcher returns is a span of `\bfor\s*\(` or `\bwhile\s*\(` |
| Patterns.MatchAtSpans | out/extension.js:131-318 | every match the matcher returns is a span of its pattern |
| Patterns.LoopKeywordLength | out/extension.js:191 | the alternation `(for\|while)` takes 0, 3 or 5 characters |
| Patterns.LoopKeywordIsFor | out/extension.js:195 | the alternation takes 3 characters exactly when `for` is there |
| Patterns.LoopKeywordIsWhile | out/extension.js:195 | the alternation takes 5 characters exactly when `while` is there |
| Patterns.KeywordsDiffer | out/extension.js:191 | `for` and `while` never start at the same place |
| Patterns.WhileIsNotFor | out/extension.js:191 | a `while` is not a `for`, so the alternation falls through to it |
| Patterns.SpacesThenFinds | out/extension.js:161 | every span of `\s*c` is exactly what the matcher returns |
| Patterns.AnyThenFinds | out/extension.js:238 | every span of `.*c` is found, and the matcher's greedy match is at least as long |
| Patterns.SpacesWordFinds | out/extension.js:131 | every span of `\s+\w+` is found, at least as long, and exactly as long when a non-word character follows |
| Patterns.QuotedFinds | out/extension.js:288 | every quoted-literal span is found, at least as long |
| Patterns.QuotedFindsAt | out/extension.js:288 | a quoted-literal span with a given opening quote is found, at least as long |
| Patterns.PlusEqualsFinds | out/extension.js:288 | every `+=` span is found, at least as long |
| Patterns.ParamNameFinds | out/extension.js:303 | every parameter span is exactly what the matcher returns |
| Patterns.ConcatFinds | out/extension.js:288 | every concatenation span is found, at least as long |
| Patterns.ConcatFindsAt | out/extension.js:288 | a concatenation span whose identifier ends at a given place is found, at least as long |
| Patterns.PlusEqualsStartsOffWord | out/extension.js:288 | `\s*\+=` starts with a non-word character, so `\w+` hands over to it |
| Patterns.CompareFinds | out/extension.js:318 | every `.compare(` span is exactly what the matcher returns |
| Patterns.CompareFindsAt | out/extension.js:318 | a `.compare(` span whose identifier ends at a given place is what the matcher returns |
| Patterns.KeywordWordFinds | out/extension.js:131-146 | every `\bkw\s+\w+` span is found, at least as long |
| Patterns.KeywordCallFinds | out/extension.js:161 | every `\bkw\s*\(` span is exactly what the matcher returns |
| Patterns.ContainerFinds | out/extension.js:238-253 | every `open.*>` span is found, at least as long |
| Patterns.StringParamFinds | out/extension.js:303 | every by-value parameter span is exactly what the matcher returns |
| Patterns.MatchAtIsLongest | out/extension.js:131-318 | every span of a pattern at a position is found there, and the match is at least as long (greedy) |
| Patterns.Find | out/extension.js:191-193 | the search from `lastIndex` returns a match at or after it |
| Patterns.FindIsMatch | out/extension.js:191-193 | what the search returns is the matcher's match at that index |
| Patterns.FindSkipsNothing | out/extension.js:191-193 | no position between `lastIndex` and the result (or after `lastIndex`, when nothing is found) matches |
| Patterns.FindIsLeftmostLongest | out/extension.js:131 | the match is a span inside the line, no span starts earlier, and none at the same place is longer |
| Patterns.FindDecidesOccurs | out/extension.js:131-132 | `line.match(re)` is non-null exactly when a span of the pattern occurs on the line |
| Patterns.FindIsFirstMatch | out/extension.js:131-137 | the search from the start finds `match(...)[0]`, and finds something exactly when the pattern occurs |
| Patterns.SpanStartsSolid | out/extension.js:131-318 | every match of every pattern starts with a non-whitespace character |
| Patterns.BlankHasNoMatch | out/extension.js:111-112 | a whitespace-only line matches no pattern |
| Rules.AnchorOf | out/extension.js:133 | each detector's column anchor is a non-empty literal |
| Rules.FixedLengthIsAnchor | out/extension.js:167 | the fixed lengths 6, 10, 2, 11 and 8 are the lengths of the anchors `malloc`, `.push_back`, `+=`, `std::string` and `.compare` |
| Rules.AnchorInSpan | out/extension.js:131-137 | the anchor occurs inside every match: at its start when the match length is reported, at or after its start otherwise |
| Rules.DetectMeans | out/extension.js:131-144 | a detector pushes exactly when its pattern occurs (and, for `std::map`, the line lacks `unordered_map`); the issue has the rule's severity, category and score, the column of the anchor's first occurrence, the first match's length or the constant, and stays on the line |
| Rules.DetectReports | out/extension.js:131-144 | one detector block reports its rule exactly when it fires, once |
| Rules.ReportsMean | out/extension.js:128-176 | every issue of a group is its rule's report, and a rule of the group is reported exactly when it fires |
| Rules.GroupReports | out/extension.js:128-176 | three detector blocks run in order report their three rules in that order |
| Rules.GroupCategory | out/extension.js:140 | every issue of a group carries the group's category |
| Rules.GroupSeverity | out/extension.js:138 | every issue of a group carries the group's severity |
| Rules.MemoryManagementReports | out/extension.js:128-176 | `analyzeMemoryManagement` reports exactly the memory rules that fire, in the order new, delete, malloc, all high-severity memory-management issues |
| Rules.StlUsageReports | out/extension.js:235-283 | `analyzeSTLUsage` reports exactly the STL rules that fire, in the order list, map, push_back, all STL-efficiency issues |
| Rules.StringOperationsReports | out/extension.js:285-333 | `analyzeStringOperations` reports exactly the string rules that fire, in the order `+=`, by-value, compare, all low-severity string issues |
| Rules.LineIssuesReport | out/extension.js:113-118 | memory, STL and string groups in that order report each firing rule once, in examination order |
| Rules.LineReports | out/extension.js:113-118 | the three groups concatenated report all nine rules in examination order |
| Rules.GroupRanks | out/extension.js:113-118 | the memory rules come before the STL rules, which come before the string rules |
| Rules.ThreeGroups | out/extension.js:113-118 | three groups with rising ranks concatenate into one ordered report |
| Rules.ReportsAtMostOnce | out/extension.js:128-333 | a line gets at most nine detector issues, one per rule |
| Rules.RanksClimb | out/extension.js:113-118 | the `i`-th issue of a line's report has rank at least `i`, so no rule repeats |
| Rules.BlankLineIsSilent | out/extension.js:111-112 | a whitespace-only line gets no detector issue |
| Comments.BlockCommentFlag.constructor | out/extension.js:105 | the `{ value: false }` box starts with the given value |
| Comments.CutLineComment | out/extension.js:93-96 | the cut is a prefix free of `//`, ends at the first `//` when there is one, and is the whole code otherwise |
| Comments.RemoveBlocks | out/extension.js:79-91 | block removal never lengthens the code |
| Comments.RemoveBlocksIsClean | out/extension.js:79-91 | after the `while (blockStart >= 0)` loop no `/*` is left; code without `/*` is untouched, and only code with `/*` opens the block state |
| Comments.StripCode | out/extension.js:79-96 | block comments then the line comment: no `/*` and no `//` is left, the code never grows, and the state opens only on a `/*` |
| Comments.StripLine | out/extension.js:65-98 | `stripComments`: no `/*`, no `//`, never longer than the line; inside a block with no `*/` it returns `""` and keeps the state; from a clear state it opens only on a `/*` |
| Comments.StripLineLexes | out/extension.js:65-91 | on a line without `//*`, the state `stripComments` leaves is exactly the state a left-to-right reading leaves (`/*` opens, the next `*/` closes), in both directions |
| Comments.RemoveBlocksLexes | out/extension.js:79-91 | the `while (blockStart >= 0)` loop, run on a prefix without `/*` followed by text without `//*`, leaves the state a left-to-right reading of that text leaves |
| Comments.JunctionOpensBlock | out/extension.js:79-91 | on `//****/**` the loop cuts out `/****/`, which glues the first `/` onto the trailing `**`, so `stripComments` opens a block comment that a left-to-right reading leaves closed |
| Comments.ResumeAfterClose | out/extension.js:68-73 | inside a block, everything through the first `*/` is dropped and the rest is stripped from a clear state |
| Comments.UnclosedOpenerOpensBlock | out/extension.js:86-89 | an opener with no later `*/` cuts the line before it (then at `//`) and sets the state |
| Comments.CleanLineIsFixpoint | out/extension.js:65-98 | a line with no `/*` and no `//` strips to itself and keeps the state clear |
| Comments.StripIsIdempotent | out/extension.js:65-98 | stripping a stripped line again from a clear state changes nothing |
| Comments.CleanLines | out/extension.js:121-122 | `lines.map(stripComments)` yields one clean line per line, each stripped in the state left by the line before |
| Comments.CleanLinesAreClean | out/extension.js:122 | every clean line is free of `/*` and `//` and no longer than its raw line |
| Comments.MarkerFreeKeepsState | out/extension.js:182-186 | stripping lines without markers never opens the block state |
| Comments.RestripIsIdentity | out/extension.js:182-186 | the tracker's re-stripping of the clean lines from a clear state yields the clean lines themselves |
| Comments.StripComments | out/extension.js:65-98 | the method returns the stripped code and leaves in the box the state `StripLine` computes |
| Comments.RemoveBlockComments | out/extension.js:79-91 | the `while` loop over the box computes `RemoveBlocks` |
| Nesting.LoopMatchesAreHeads | out/extension.js:191-197 | the matches `exec` returns are loop heads at or after `lastIndex`, in order and without overlap |
| Nesting.HeadStartsWithKeyword | out/extension.js:191 | a loop head starts with `for` or `while` after a non-word character |
| Nesting.LoopHeadsDoNotOverlap | out/extension.js:191-193 | no loop head starts inside another |
| Nesting.InsideKeyword | out/extension.js:191 | inside `for`/`while` the `\b` fails |
| Nesting.AfterKeyword | out/extension.js:191 | after the keyword of a head no other keyword starts inside the head |
| Nesting.LoopMatchesAreAllHeads | out/extension.js:193-197 | a position holds a loop head exactly when `exec` reports a match there: none skipped, none made up |
| Nesting.HeadIsFound | out/extension.js:193-197 | every head at or after `lastIndex` is among the matches `exec` returns |
| Nesting.NextHeadReachesAt | out/extension.js:193 | the next `exec` stops at the head or at one that ends before it |
| Nesting.Entries | out/extension.js:197 | one stack entry per head |
| Nesting.LevelIssues | out/extension.js:199-223 | one issue per head except a first head on an empty stack |
| Nesting.PushAllIsClosedForm | out/extension.js:193-224 | the `exec` loop appends one entry per head and one classified issue per head that reaches level 2 or more |
| Nesting.PopClosers | out/extension.js:227-230 | `n` closing braces pop `n` entries, or all of them |
| Nesting.StackAfterLine | out/extension.js:193-230 | the height after a line is `max(0, height + heads - closing braces)`: never negative, and `{` plays no part |
| Nesting.LoopIssueIsClassified | out/extension.js:199-223 | a reported head is medium/score 6/`O(n²)` at level 2 and high/score `min(10, 7 + level)` deeper, at the head's column and length |
| Nesting.NestingStepIssues | out/extension.js:193-224 | a line adds one classified issue per head, except the first head on an empty stack |
| Nesting.TrackIssues | out/extension.js:183-231 | every nesting issue lies on an examined line and is a classified loop head of it |
| Nesting.TrackLinesAscend | out/extension.js:183-231 | nesting issues come in document order |
| Nesting.TrackReportsHeads | out/extension.js:193-204 | every nesting issue highlights a loop head of its line, on a line of the document |
| Nesting.SkippedLineKeepsTracker | out/extension.js:188-189 | a line that is not examined neither pushes nor pops |
| Nesting.ScanJs | out/extension.js:183-189 | the JavaScript tracker examines exactly the lines that are not blank after stripping |
| Nesting.ScanTs | src/extension.ts:131-138 | the TypeScript tracker examines the raw lines except those skipped by the trimmed-prefix test |
| Nesting.ScansFindHeads | out/extension.js:191-197 | both scans record the heads `exec` finds |
| Nesting.PushHeads | out/extension.js:193-224 | the `exec` loop pushes every head and reports as the closed form says |
| Nesting.ExecTurn | out/extension.js:193-197 | one `exec` turn pushes the head and leaves one head fewer |
| Nesting.PushHead | out/extension.js:197-223 | one push, classified by the height it reaches |
| Nesting.PopLoops | out/extension.js:227-230 | the pop loop removes one entry per `}` while the stack is non-empty |
| Nesting.ScanLine | out/extension.js:190-230 | one examined line: push the heads, then pop for the closers |
| Nesting.ScanLineJs | out/extension.js:186-230 | a line that is blank after stripping is skipped; any other is scanned |
| Nesting.ScanLineTs | src/extension.ts:132-186 | a line whose trim is empty or starts with `//` or `/*` is skipped; any other is scanned |
| Nesting.NestingLineJs | out/extension.js:184-230 | one iteration strips with the shared box and steps the tracker as `Track` says |
| Nesting.AnalyzeLoopNesting | out/extension.js:178-233 | the JavaScript `analyzeLoopNesting` returns the issues of `Track` over the stripped lines |
| Nesting.AnalyzeLoopNestingTs | src/extension.ts:127-190 | the TypeScript `analyzeLoopNesting` returns the issues of `Track` over the raw lines |
| Nesting.NestingLineTs | src/extension.ts:131-187 | one iteration steps the tracker as `Track` says |
| Analyzer.PerLine | out/extension.js:113-118 | one issue group per line |
| Analyzer.FlattenKeepsLines | out/extension.js:106-119 | each issue of the pushed groups comes from the group of its own line |
| Analyzer.FlattenIsInReadingOrder | out/extension.js:106-119 | the pushed groups come in line order, memory then STL then string within a line |
| Analyzer.FlattenFindsGroup | out/extension.js:106-119 | a message is found on line `i` of the pushed issues exactly when it is in group `i` |
| Analyzer.PerLineIsOrdered | out/extension.js:113-118 | every group holds issues of its own line, with rules in examination order |
| Analyzer.PerLineReports | out/extension.js:113-118 | every issue of group `k` is its rule's report on line `k` |
| Analyzer.PerLineFires | out/extension.js:113-118 | group `k` holds a report of a rule exactly when the rule fires on line `k` |
| Analyzer.EveryRuleIsExamined | out/extension.js:113-118 | every rule belongs to one of the three groups |
| Analyzer.AnalyzeDocument | out/extension.js:100-125 | the JavaScript `analyzeDocument` returns `Analysis` of the split text: detector issues of the clean lines, then the nesting issues |
| Analyzer.DetectAll | out/extension.js:106-119 | the first loop, threading the box, returns the detector issues of the clean lines, blank ones skipped |
| Analyzer.DetectLine | out/extension.js:107-118 | one turn strips line `i`, advances the box, and pushes nothing on a blank line, the three groups otherwise |
| Analyzer.CleanAll | out/extension.js:121-122 | the reset box and `lines.map(stripComments)` give the clean lines |
| Analyzer.StripNext | out/extension.js:109 | stripping line `i` with the box in the state after line `i - 1` gives clean line `i` and the state after line `i` |
| Analyzer.CleanPrefixIsCleanLines | out/extension.js:122 | the lines stripped one by one are the clean lines |
| Analyzer.CleanPrefixIsPrefix | out/extension.js:122 | the first `n` lines stripped one by one are the first `n` clean lines |
| Analyzer.NestingSeesCleanLines | out/extension.js:183-189 | the tracker sees clean line `k` itself and examines it exactly when it is not blank |
| Analyzer.AnalysisOrder | out/extension.js:100-125 | detector issues come first, in reading order; the nesting issues follow in line order and are all algorithmic-complexity loop issues |
| Analyzer.AnalysisDetectsFiringRules | out/extension.js:106-119 | a rule is reported on line `i` exactly when it fires on clean line `i` |
| Analyzer.DetectionsFindFiringRules | out/extension.js:113-118 | among the detector issues, a rule is reported on a line exactly when it fires there |
| Analyzer.FoundAmongDetections | out/extension.js:124 | a detector message is in the whole result exactly when it is among the detector issues |
| Analyzer.DetectionIsPlaced | out/extension.js:133-137 | a detector issue lies on a line of the document, within that line |
| Analyzer.DetectionsArePlaced | out/extension.js:133-137 | every detector issue lies within its line |
| Analyzer.NestingIssuesArePlaced | out/extension.js:201-204 | a nesting issue that highlights a loop head lies within its line |
| Analyzer.ScanJsTexts | out/extension.js:186 | the JavaScript tracker scans the clean lines themselves |
| Analyzer.ScanTsTexts | src/extension.ts:132 | the TypeScript tracker scans the raw lines |
| Analyzer.CleanLinesAreShorter | out/extension.js:122 | no clean line is longer than its raw line |
| Analyzer.AnalysisIsPlaced | out/extension.js:100-125 | every issue has a line in `[0, #lines)`, `column >= 0`, `length >= 0`, and its highlight fits in both the clean and the raw line |
| Analyzer.BlankLineHasNoDetection | out/extension.js:111-112 | no detector issue lands on a blank line |
| Analyzer.BlankCleanLineIsSilent | out/extension.js:109-112 | a line that is blank after stripping gets no issue at all |
| Analyzer.LineInsideBlockCommentIsSilent | out/extension.js:68-76 | a line that starts inside a block comment and does not close it gets no issue, whatever it says |
| Analyzer.CommentedOutLineIsSilent | out/extension.js:93-96 | an indented `//` line with no `/*`, outside any block comment, gets no issue |
| Analyzer.AnalyzeDocumentTs | src/extension.ts:47-69 | the TypeScript `analyzeDocument` returns `AnalysisTs` of the split text: detector issues of every raw line, then the nesting issues |
| Analyzer.DetectAllTs | src/extension.ts:52-63 | the loop runs the three groups on every raw line, blank or commented |
| Analyzer.DetectLineTs | src/extension.ts:53-62 | one turn pushes line `i`'s three groups after the issues of the lines before |
| Analyzer.AnalysisTsDetectsFiringRules | src/extension.ts:52-63 | a rule is reported on line `i` exactly when it fires on the raw line, comments included |
| Analyzer.SkippedLineHasNoLoopIssueTs | src/extension.ts:133-138 | a line whose trim is empty or starts with `//` or `/*` gets no nesting issue |
| Analyzer.NestingAvoidsLine | src/extension.ts:66 | appended nesting issues avoid a line the tracker skipped |
| Analyzer.AnalysisTsOrder | src/extension.ts:47-69 | detector issues first, in reading order; the nesting issues follow in line order, all algorithmic-complexity loop issues |
| Analyzer.AnalysisTsIsPlaced | src/extension.ts:47-69 | every issue has a line in `[0, #lines)` and its highlight fits within the raw line |

Proof steps. Some lemmas only take one step of a larger proof and carry no
row of their own. `ExciseBlock` does one turn of the block-comment loop.
`LoopMatchesNext`, `LoopMatchesEnd`, `NextExec`, `LastExec`, `ConsStep`,
`PushAllSnoc` and `PushAllCons` do one `exec` of the loop-head scan.
`TrackTsStep` does one line of the TypeScript scan. `PerLineAt`,
`AppendGroup`, `FoundBeforeLast`, `FoundInLast` and `FoundInGroup` do one
line's group of detector issues. `NestingPart`, `AppendIsPlaced` and
`AppendAvoidsLine` join the detector issues to the nesting issues.
`ConcatAtWord` and `CompareAtWord` split a matcher into its identifier and
the rest. `OpenerInJoin`, `LexStep`, `JoinIndices`, `CutJoin`,
`RemoveBlocksStep`, `RemoveBlocksOpens`, `PrefixStaysFree`, `JunctionCut` and
`JunctionLexes` take the steps of `RemoveBlocksLexes` and
`JunctionOpensBlock`. The lemmas in the table above rest on them.

## Left out

- The VS Code host glue is not modelled: decoration types, `updateDecorations`, diagnostics, commands, `activate`/`deactivate`, `dispose` and the debounce timers. These are calls into an editor API with no logic of their own.
- `document.getText()` is not modelled; the drivers take the document text as a parameter.
- Message and suggestion strings are tags (`Message`); the deep-loop tag carries the level that the message interpolates. The texts themselves are not modelled.
- The unused `openBraces` count in the tracker is not modelled; it affects nothing.
- No general regular-expression engine is modelled. The ten patterns are written out by hand, with JavaScript's `\w`, `\s`, `\b` and `.` (which stops at line terminators).
- Columns and lengths are counted in Unicode scalar values, one `char` each, not in JavaScript's UTF-16 code units. A character outside the Basic Multilingual Plane is one `char` here and two code units in the source. Each such character before a position makes the model's column one smaller than the source's: in `😀 new x` the source reports column 3 and the model column 2. Match lengths and line lengths shrink the same way. Whether a line matches does not change, because `\w`, `\s` and line terminators never match a surrogate and `.` matches both halves of a pair.
- The compiled module-interop shims at the head of `out/extension.js` are not modelled.
- Comments.StripLine: its contract bounds the exit state in one direction only: from a clear state, the block state opens only on a line with `/*`. The exact exit state is proved apart, in `StripLineLexes`, and only for lines without `//*`. On other lines a cut can make a new opener, and the state then differs from a left-to-right reading: `//****/**` opens a block comment (`JunctionOpensBlock`). The model keeps this behaviour of the source.
- Analyzer.DetectLine: the source pushes each group straight into `issues`; the model's loop turn returns the line's issues and the loop appends them, which yields the same sequence.
