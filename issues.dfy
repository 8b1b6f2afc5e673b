/** The record every analysis produces (`EnergyIssue`). The human-readable
    message and suggestion are represented by the `Message` tag: the texts are
    fixed per tag, except that the deep-loop message interpolates the nesting
    level, which the tag carries. */
module Issues {

  datatype Severity = Low | Medium | High

  datatype Category = MemoryManagement | StlEfficiency | AlgorithmicComplexity | StringOperations

  /** The nine single-line detectors, in the order a line is examined. */
  datatype Rule =
    | RawNew | RawDelete | Malloc
    | ListUsage | MapUsage | PushBack
    | StringConcat | StringByValue | StringCompare

  datatype Message = Detected(rule: Rule) | DoubleLoop | DeepLoop(level: int)

  datatype Issue = Issue(
    line: int,
    column: int,
    length: int,
    severity: Severity,
    message: Message,
    category: Category,
    score: int)

  /** The highlight range `[column, column + length)` lies on line `line` of `lines`. */
  predicate PlacedIn(issue: Issue, lines: seq<string>) {
    && 0 <= issue.line < |lines|
    && 0 <= issue.column
    && 0 <= issue.length
    && issue.column + issue.length <= |lines[issue.line]|
  }
}
