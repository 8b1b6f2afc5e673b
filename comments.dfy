/** The comment stripper (`stripComments`) and the clean lines of a document.
    A line is stripped in the state left by the line before it: a flag that
    says whether an unterminated block comment is still open. The stripper knows
    nothing of string literals, so `"//"` inside quotes also cuts the line. */
module Comments {
  import opened Text

  /** The `{ value: boolean }` box that the stripper updates in place. */
  class BlockCommentFlag {
    var value: bool

    constructor (value: bool)
      ensures this.value == value
    {
      this.value := value;
    }
  }

  /** What stripping one line yields: the remaining code and the new state. */
  datatype Stripped = Stripped(code: string, inBlock: bool)

  /** The code before the first `//`. */
  function CutLineComment(code: string): (r: string)
    ensures |r| <= |code| && r == code[..|r|]
    ensures !Contains(r, "//")
    ensures Contains(code, "//") ==> FirstOccurrence(code, "//", |r|)
    ensures !Contains(code, "//") ==> r == code
  {
    var k := IndexOf(code, "//");
    if k >= 0 then
      BeforeFirstIsFree(code, "//", k);
      code[..k]
    else code
  }

  /** The `while (blockStart >= 0)` loop: each block comment, searched for
      from the left after every excision, is cut out; an opener without a
      terminator cuts the rest of the line and opens the block state. */
  function RemoveBlocks(code: string): (r: Stripped)
    ensures |r.code| <= |code|
    decreases |code|
  {
    var k := IndexOf(code, "/*");
    if k < 0 then Stripped(code, false)
    else
      var e := IndexOfFrom(code, "*/", k + 2);
      if e >= 0 then
        RemoveBlocks(code[..k] + code[e + 2..])
      else Stripped(code[..k], true)
  }

  /** What the loop leaves holds no block-comment opener; a line without one
      is left as it is, and only a line with one can open the block state. */
  lemma {:induction false} RemoveBlocksIsClean(code: string)
    ensures !Contains(RemoveBlocks(code).code, "/*")
    ensures !Contains(code, "/*") ==> RemoveBlocks(code) == Stripped(code, false)
    ensures RemoveBlocks(code).inBlock ==> Contains(code, "/*")
    decreases |code|
  {
    var k := IndexOf(code, "/*");
    if k >= 0 {
      var e := IndexOfFrom(code, "*/", k + 2);
      assert HasAt(code, k, "/*");
      if e >= 0 {
        ExciseBlock(code, k, e);
        RemoveBlocksIsClean(code[..k] + code[e + 2..]);
      } else {
        BeforeFirstIsFree(code, "/*", k);
        assert RemoveBlocks(code) == Stripped(code[..k], true);
      }
    }
  }

  /** One turn of the loop: cutting out the first block comment leaves the
      result unchanged. */
  lemma ExciseBlock(code: string, k: int, e: int)
    requires k == IndexOf(code, "/*") && k >= 0 && e == IndexOfFrom(code, "*/", k + 2) && e >= 0
    ensures RemoveBlocks(code) == RemoveBlocks(code[..k] + code[e + 2..])
  {
  }

  /** Block comments first, then the line comment. */
  function StripCode(code: string): (r: Stripped)
    ensures !Contains(r.code, "/*") && !Contains(r.code, "//")
    ensures |r.code| <= |code|
    ensures r.inBlock ==> Contains(code, "/*")
  {
    var b := RemoveBlocks(code);
    RemoveBlocksIsClean(code);
    var c := CutLineComment(b.code);
    PrefixKeepsAbsent(b.code, |c|, "/*");
    Stripped(c, b.inBlock)
  }

  /** `stripComments(line, inBlockComment)`: the result holds no block-comment
      opener and no `//`, is never longer than the line, and a line that starts
      inside a block comment and never closes it is dropped with the state kept. */
  function StripLine(line: string, inBlock: bool): (r: Stripped)
    ensures !Contains(r.code, "/*") && !Contains(r.code, "//")
    ensures |r.code| <= |line|
    ensures inBlock && !Contains(line, "*/") ==> r == Stripped("", true)
    ensures !inBlock && r.inBlock ==> Contains(line, "/*")
  {
    if inBlock then
      var e := IndexOf(line, "*/");
      if e < 0 then Stripped("", true)
      else StripCode(line[e + 2..])
    else StripCode(line)
  }

  /** Inside a block comment, everything up to and including the first
      terminator is dropped and the rest is stripped from a clear state. */
  lemma ResumeAfterClose(line: string, e: int)
    requires FirstOccurrence(line, "*/", e)
    ensures StripLine(line, true) == StripLine(line[e + 2..], false)
  {
    FirstOccurrenceIsIndexOf(line, "*/", e);
  }

  /** An opener with no terminator after it opens the block state and cuts
      the line before it. */
  lemma UnclosedOpenerOpensBlock(line: string, k: int)
    requires FirstOccurrence(line, "/*", k)
    requires forall j :: k + 2 <= j ==> !HasAt(line, j, "*/")
    ensures StripLine(line, false) == Stripped(CutLineComment(line[..k]), true)
  {
    assert IndexOfFrom(line, "*/", k + 2) == -1;
    BeforeFirstIsFree(line, "/*", k);
    PrefixKeepsAbsent(line[..k], |CutLineComment(line[..k])|, "/*");
  }

  /** A line without comment markers is its own clean line. */
  lemma CleanLineIsFixpoint(line: string)
    requires !Contains(line, "/*") && !Contains(line, "//")
    ensures StripLine(line, false) == Stripped(line, false)
  {
  }

  /** Stripping is idempotent: a clean line strips to itself from a clear state. */
  lemma StripIsIdempotent(line: string, inBlock: bool)
    ensures var c := StripLine(line, inBlock).code;
            StripLine(c, false) == Stripped(c, false)
  {
    CleanLineIsFixpoint(StripLine(line, inBlock).code);
  }

  // ---------------------------------------------------------------------------
  // The state a left-to-right reading leaves

  /** The block state after reading `s` from left to right: `/*` opens a
      block comment and the first `*/` after it closes it. Like the stripper,
      this reading does not let `//` hide an opener. */
  function LexState(s: string, inBlock: bool): bool
    decreases |s|
  {
    if inBlock then
      var e := IndexOf(s, "*/");
      if e < 0 then true else LexState(s[e + 2..], false)
    else
      var k := IndexOf(s, "/*");
      if k < 0 then false else LexState(s[k + 2..], true)
  }

  /** A prefix with no opener, not ending in `/`, adds no opener in front of
      `s`: the first opener of `p + s` is the first of `s`, shifted. */
  lemma {:induction false} OpenerInJoin(p: string, s: string)
    requires !Contains(p, "/*") && (p == [] || p[|p| - 1] != '/')
    ensures IndexOf(p + s, "/*") ==
            (var r := IndexOf(s, "/*"); if r < 0 then -1 else |p| + r)
  {
    forall k | 0 <= k < |p| ensures !HasAt(p + s, k, "/*") {
      if k + 2 <= |p| {
        assert (p + s)[k..k + 2] == p[k..k + 2];
        assert !HasAt(p, k, "/*");
      } else {
        assert (p + s)[k] == p[|p| - 1];
      }
    }
    IndexOfFromShift(p, s, "/*", 0);
  }

  /** One step of the left-to-right reading from a clear state: past the
      first opener, the first terminator after it closes the comment. */
  lemma {:induction false} LexStep(s: string, kS: int)
    requires kS == IndexOf(s, "/*") && kS >= 0
    ensures var eS := IndexOfFrom(s, "*/", kS + 2);
            LexState(s, false) == if eS < 0 then true else LexState(s[eS + 2..], false)
  {
    assert HasAt(s, kS, "/*");
    IndexOfSuffix(s, kS + 2, "*/");
    var eS := IndexOfFrom(s, "*/", kS + 2);
    if eS >= 0 {
      assert s[kS + 2..][eS - (kS + 2) + 2..] == s[eS + 2..];
    }
  }

  /** One turn of the stripper's loop on `p + s`, whose first opener lies in
      `s` at `kS` and is closed at `eS`: the comment is cut out of `s`. */
  lemma {:induction false} RemoveBlocksStep(p: string, s: string, kS: int, eS: int)
    requires !Contains(p, "/*") && (p == [] || p[|p| - 1] != '/')
    requires kS == IndexOf(s, "/*") && kS >= 0
    requires eS == IndexOfFrom(s, "*/", kS + 2) && eS >= 0
    ensures RemoveBlocks(p + s) == RemoveBlocks(p + s[..kS] + s[eS + 2..])
  {
    var k, e := |p| + kS, |p| + eS;
    JoinIndices(p, s, kS, eS, k, e);
    ExciseBlock(p + s, k, e);
    CutJoin(p, s, kS, eS, k, e);
  }

  /** Where the loop finds that comment in `p + s`. */
  lemma {:induction false} JoinIndices(p: string, s: string, kS: int, eS: int, k: int, e: int)
    requires !Contains(p, "/*") && (p == [] || p[|p| - 1] != '/')
    requires kS == IndexOf(s, "/*") && kS >= 0
    requires eS == IndexOfFrom(s, "*/", kS + 2) && eS >= 0
    requires k == |p| + kS && e == |p| + eS
    ensures k == IndexOf(p + s, "/*") && k >= 0
    ensures e == IndexOfFrom(p + s, "*/", k + 2) && e >= 0
  {
    OpenerInJoin(p, s);
    IndexOfFromShift(p, s, "*/", kS + 2);
  }

  /** The same turn when the opener is never closed: the block state opens. */
  lemma {:induction false} RemoveBlocksOpens(p: string, s: string, kS: int)
    requires !Contains(p, "/*") && (p == [] || p[|p| - 1] != '/')
    requires kS == IndexOf(s, "/*") && kS >= 0
    requires IndexOfFrom(s, "*/", kS + 2) < 0
    ensures RemoveBlocks(p + s).inBlock
  {
    OpenerInJoin(p, s);
    IndexOfFromShift(p, s, "*/", kS + 2);
  }

  /** Cutting `[k, e + 2)` out of `p + s`, where `k` and `e` lie in `s` at
      `kS` and `eS`, cuts `[kS, eS + 2)` out of `s`. */
  lemma CutJoin(p: string, s: string, kS: nat, eS: nat, k: int, e: int)
    requires kS <= eS + 2 <= |s| && k == |p| + kS && e == |p| + eS
    ensures (p + s)[..k] + (p + s)[e + 2..] == p + s[..kS] + s[eS + 2..]
  {
    assert (p + s)[..k] == p + s[..kS];
    assert (p + s)[e + 2..] == s[eS + 2..];
  }

  // The text before the first opener of a line without `//*` extends the
  // opener-free prefix and does not end in `/`.
  lemma {:induction false} PrefixStaysFree(p: string, s: string, kS: int)
    requires !Contains(p, "/*") && (p == [] || p[|p| - 1] != '/')
    requires !Contains(s, "//*")
    requires kS == IndexOf(s, "/*") && kS >= 0
    ensures var p' := p + s[..kS];
            !Contains(p', "/*") && (p' == [] || p'[|p'| - 1] != '/')
  {
    assert HasAt(s, kS, "/*");
    BeforeFirstIsFree(s, "/*", kS);
    OpenerInJoin(p, s[..kS]);
    assert kS > 0 && s[kS - 1] == '/' ==> HasAt(s, kS - 1, "//*") by {
      if kS > 0 {
        assert s[kS - 1..kS + 2] == [s[kS - 1]] + s[kS..kS + 2];
      }
    }
  }

  // Cutting out block comments leaves the state a left-to-right reading of
  // the rest leaves, as long as no cut glues a `/` onto a `*`. That can only
  // happen at a `//*`, so a line without one is read correctly.
  lemma {:induction false} RemoveBlocksLexes(p: string, s: string)
    requires !Contains(p, "/*") && (p == [] || p[|p| - 1] != '/')
    requires !Contains(s, "//*")
    ensures RemoveBlocks(p + s).inBlock == LexState(s, false)
    decreases |s|
  {
    var kS := IndexOf(s, "/*");
    OpenerInJoin(p, s);
    if kS >= 0 {
      LexStep(s, kS);
      var eS := IndexOfFrom(s, "*/", kS + 2);
      if eS < 0 {
        RemoveBlocksOpens(p, s, kS);
      } else {
        RemoveBlocksStep(p, s, kS, eS);
        PrefixStaysFree(p, s, kS);
        SuffixKeepsAbsent(s, eS + 2, "//*");
        RemoveBlocksLexes(p + s[..kS], s[eS + 2..]);
      }
    }
  }

  // On a line without `//*`, the state the stripper leaves is exactly the
  // state a left-to-right reading leaves, in both directions.
  lemma StripLineLexes(line: string, inBlock: bool)
    requires !Contains(line, "//*")
    ensures StripLine(line, inBlock).inBlock == LexState(line, inBlock)
  {
    if inBlock {
      var e := IndexOf(line, "*/");
      if e >= 0 {
        SuffixKeepsAbsent(line, e + 2, "//*");
        assert [] + line[e + 2..] == line[e + 2..];
        RemoveBlocksLexes([], line[e + 2..]);
      }
    } else {
      assert [] + line == line;
      RemoveBlocksLexes([], line);
    }
  }

  // Where the exact reading stops: in `//****/**` the stripper cuts out
  // `/****/`, which glues the first `/` onto the trailing `**` and makes a
  // new opener, so the line opens a block comment that a left-to-right
  // reading leaves closed.
  lemma JunctionOpensBlock()
    ensures StripLine("//****/**", false) == Stripped("", true)
    ensures !LexState("//****/**", false)
  {
    JunctionCut();
    JunctionLexes();
  }

  /** The reading's half of that example: `/*` at 1 is closed by the `*/` at
      5, and no opener follows. */
  lemma JunctionLexes()
    ensures !LexState("//****/**", false)
  {
    var rest := "***/**";
    assert "//****/**"[0..2] == "//" && "//****/**"[1..3] == "/*";
    FirstOccurrenceIsIndexOf("//****/**", "/*", 1);
    assert "//****/**"[3..] == rest;
    assert rest[0..2] == "**" && rest[1..3] == "**" && rest[2..4] == "*/";
    FirstOccurrenceIsIndexOf(rest, "*/", 2);
    assert rest[4..] == "**";
    assert "**"[0..2] == "**";
    IndexOfFromIs("**", "/*", 0, -1);
  }

  /** The stripper's half of that example: the two turns of its loop. */
  lemma JunctionCut()
    ensures RemoveBlocks("//****/**") == Stripped("", true)
  {
    var line := "//****/**";
    assert line[0..2] == "//" && line[1..3] == "/*";
    FirstOccurrenceIsIndexOf(line, "/*", 1);
    assert line[3..5] == "**" && line[4..6] == "**" && line[5..7] == "*/";
    IndexOfFromIs(line, "*/", 3, 5);
    assert line[..1] + line[7..] == "/**";
    assert "/**"[0..2] == "/*";
    FirstOccurrenceIsIndexOf("/**", "/*", 0);
    IndexOfFromIs("/**", "*/", 2, -1);
  }

  // ---------------------------------------------------------------------------
  // A whole document

  /** The flag's value before line `i` when the document is stripped line by
      line from a clear state. */
  function StateBefore(lines: seq<string>, i: nat): bool
    requires i <= |lines|
  {
    if i == 0 then false else StripLine(lines[i - 1], StateBefore(lines, i - 1)).inBlock
  }

  /** Line `i` of the document after stripping. */
  function CleanLine(lines: seq<string>, i: nat): string
    requires i < |lines|
  {
    StripLine(lines[i], StateBefore(lines, i)).code
  }

  /** `lines.map(line => stripComments(line, inBlockComment))`. */
  function CleanLines(lines: seq<string>): (clean: seq<string>)
    ensures |clean| == |lines|
    ensures forall i :: 0 <= i < |lines| ==> clean[i] == CleanLine(lines, i)
  {
    seq(|lines|, i requires 0 <= i < |lines| => CleanLine(lines, i))
  }

  /** Every clean line is free of comment markers and no longer than its line. */
  lemma CleanLinesAreClean(lines: seq<string>)
    ensures forall i :: 0 <= i < |lines| ==>
      |CleanLines(lines)[i]| <= |lines[i]| &&
      !Contains(CleanLines(lines)[i], "/*") && !Contains(CleanLines(lines)[i], "//")
  {
    var clean := CleanLines(lines);
    forall i | 0 <= i < |lines|
      ensures |clean[i]| <= |lines[i]| && !Contains(clean[i], "/*") && !Contains(clean[i], "//")
    {
      assert clean[i] == StripLine(lines[i], StateBefore(lines, i)).code;
    }
  }

  /** Lines without comment markers never open the block state. */
  lemma {:induction false} MarkerFreeKeepsState(lines: seq<string>, i: nat)
    requires i <= |lines|
    requires forall k :: 0 <= k < |lines| ==> !Contains(lines[k], "/*") && !Contains(lines[k], "//")
    ensures StateBefore(lines, i) == false
  {
    if i > 0 {
      var line := lines[i - 1];
      assert !Contains(line, "/*") && !Contains(line, "//");
      MarkerFreeKeepsState(lines, i - 1);
      CleanLineIsFixpoint(line);
      assert StateBefore(lines, i) == StripLine(line, false).inBlock;
    }
  }

  /** Stripping the clean lines again from a clear state changes nothing:
      the state never opens and every line is its own clean line. */
  lemma RestripIsIdentity(lines: seq<string>)
    ensures CleanLines(CleanLines(lines)) == CleanLines(lines)
  {
    var clean := CleanLines(lines);
    CleanLinesAreClean(lines);
    forall i | 0 <= i < |clean| ensures CleanLine(clean, i) == clean[i] {
      MarkerFreeKeepsState(clean, i);
      CleanLineIsFixpoint(clean[i]);
    }
  }

  // ---------------------------------------------------------------------------
  // The stripper as the code runs it

  /** `stripComments(line, inBlockComment)`, updating the flag in place. */
  method StripComments(line: string, flag: BlockCommentFlag) returns (code: string)
    modifies flag
    ensures Stripped(code, flag.value) == StripLine(line, old(flag.value))
  {
    code := line;
    if flag.value {
      var endIndex := IndexOf(code, "*/");
      if endIndex >= 0 {
        code := code[endIndex + 2..];
        flag.value := false;
      } else {
        return "";
      }
    }
    assert StripLine(line, old(flag.value)) == StripCode(code);
    code := RemoveBlockComments(code, flag);
    var lineCommentIndex := IndexOf(code, "//");
    if lineCommentIndex >= 0 {
      code := code[..lineCommentIndex];
    }
  }

  /** The `while (blockStart >= 0)` loop of `stripComments`. */
  method RemoveBlockComments(code0: string, flag: BlockCommentFlag) returns (code: string)
    requires !flag.value
    modifies flag
    ensures Stripped(code, flag.value) == RemoveBlocks(code0)
  {
    code := code0;
    var blockStart := IndexOf(code, "/*");
    while blockStart >= 0
      invariant !flag.value
      invariant RemoveBlocks(code) == RemoveBlocks(code0)
      invariant blockStart == IndexOf(code, "/*")
      decreases |code|
    {
      var blockEnd := IndexOfFrom(code, "*/", blockStart + 2);
      if blockEnd >= 0 {
        ExciseBlock(code, blockStart, blockEnd);
        code := code[..blockStart] + code[blockEnd + 2..];
        blockStart := IndexOf(code, "/*");
      } else {
        code := code[..blockStart];
        flag.value := true;
        break;
      }
    }
  }
}
