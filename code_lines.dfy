/** `CodeLines`: the line scanner. It walks the lines of one file, counting the
    zero-length lines before each line, runs the per-line checks on every
    non-empty line, and then hands the parsed tree to the visitor. What it prints
    is modelled as the field `output`, a sequence of diagnostics that only
    grows. */
module Scanner {
  import opened Text
  import opened Diagnostics
  import opened AstVisitor
  import LineChecks

  /** The value of `blank_lines` after the loop has passed over `lines`,
      starting from `b0`: one more for a zero-length line, back to 0 after any
      other line. */
  function BlankRun(lines: seq<string>, b0: nat): nat
    decreases |lines|
  {
    if lines == [] then b0
    else if lines[|lines| - 1] == [] then BlankRun(lines[..|lines| - 1], b0) + 1
    else 0
  }

  /** The value of `code_line` after the loop has passed over `lines`: the last
      non-empty line, or `line0` when there is none. */
  function LastCodeLine(lines: seq<string>, line0: string): string
    decreases |lines|
  {
    if lines == [] then line0
    else if lines[|lines| - 1] == [] then LastCodeLine(lines[..|lines| - 1], line0)
    else lines[|lines| - 1]
  }

  /** The characters of a line: `set(line)`. */
  function CharsOf(s: string): set<char> {
    set c | c in s
  }

  /** A per-line check: what one pass of the loop prints for a line, given
      the line's number and the count of zero-length lines right before it. */
  type LineCheck = (string, int, nat) -> seq<Diagnostic>

  /** `printed`, what a pass printed for `line` numbered `num`, holds line
      diagnostics only, each at `num`, and is empty for a zero-length line. */
  predicate PrintsOwnLine(printed: seq<Diagnostic>, line: string, num: int) {
    forall d :: d in printed ==> line != [] && d.line == num && IsLineCode(d.code)
  }

  /** `check` prints only as `PrintsOwnLine` allows, for every line. */
  ghost predicate OwnLineOnly(check: LineCheck) {
    forall line, num, blank :: PrintsOwnLine(check(line, num, blank), line, num)
  }

  /** What one pass of the loop of `file_check` prints for `line`, numbered
      `num`, after `blank` zero-length lines: nothing for a zero-length line,
      `code_check` for any other line. */
  function LineOutput(line: string, num: int, blank: nat): seq<Diagnostic> {
    if line == [] then [] else LineChecks.CodeCheck(line, num, blank)
  }

  /** What each pass of the loop prints, one group per line, when every pass
      runs `check`, the first of `lines` is line number `start` and `b0`
      zero-length lines came before. */
  function Outputs(check: LineCheck, lines: seq<string>, start: int, b0: nat): (r: seq<seq<Diagnostic>>)
    ensures |r| == |lines|
    decreases |lines|
  {
    if lines == [] then []
    else
      var k := |lines| - 1;
      Outputs(check, lines[..k], start, b0) + [check(lines[k], start + k, BlankRun(lines[..k], b0))]
  }

  /** What the loop of `file_check` prints for `lines`. */
  function Scan(lines: seq<string>, start: int, b0: nat): seq<Diagnostic> {
    Flatten(Outputs(LineOutput, lines, start, b0))
  }

  /** A pass prints only diagnostics of its own line, and nothing for a
      zero-length line. */
  lemma LineOutputOwnLine()
    ensures OwnLineOnly(LineOutput)
  {
    var check: LineCheck := LineOutput;
    forall line, num, blank
      ensures PrintsOwnLine(check(line, num, blank), line, num)
    {
      if line != [] {
        LineChecks.CodeCheckLines(line, num, blank);
      }
    }
  }

  /** Group `k` is what the pass over line `k` prints, given the zero-length
      lines before it. */
  lemma {:induction false} OutputsAt(check: LineCheck, lines: seq<string>, start: int, b0: nat, k: nat)
    requires k < |lines|
    ensures Outputs(check, lines, start, b0)[k] == check(lines[k], start + k, BlankRun(lines[..k], b0))
    decreases |lines|
  {
    var last := |lines| - 1;
    var init := lines[..last];
    if k < last {
      OutputsAt(check, init, start, b0, k);
      assert init[..k] == lines[..k];
    }
  }

  /** With a check that prints only at its own line, group `j` holds only
      diagnostics of line `start + j`. */
  lemma OutputsNumbered(check: LineCheck, lines: seq<string>, start: int, b0: nat)
    requires OwnLineOnly(check)
    ensures NumberedFrom(Outputs(check, lines, start, b0), start)
  {
    var groups: seq<seq<Diagnostic>> := Outputs(check, lines, start, b0);
    forall j | 0 <= j < |groups|
      ensures forall d :: d in groups[j] ==> d.line == start + j
    {
      OutputsAt(check, lines, start, b0, j);
      assert PrintsOwnLine(check(lines[j], start + j, BlankRun(lines[..j], b0)), lines[j], start + j);
    }
  }

  /** With such a check, the joined groups hold line diagnostics only, each
      for a non-empty line among `lines`. */
  lemma OutputsLines(check: LineCheck, lines: seq<string>, start: int, b0: nat)
    requires OwnLineOnly(check)
    ensures forall d :: d in Flatten(Outputs(check, lines, start, b0)) ==>
      && start <= d.line < start + |lines|
      && lines[d.line - start] != []
      && IsLineCode(d.code)
  {
    var groups: seq<seq<Diagnostic>> := Outputs(check, lines, start, b0);
    forall d | d in Flatten(groups)
      ensures start <= d.line < start + |lines| && lines[d.line - start] != [] && IsLineCode(d.code)
    {
      FlattenMember(groups, d);
      var j :| 0 <= j < |groups| && d in groups[j];
      OutputsAt(check, lines, start, b0, j);
      assert PrintsOwnLine(check(lines[j], start + j, BlankRun(lines[..j], b0)), lines[j], start + j);
    }
  }

  class CodeLines {
    const path: string
    /** The lines of the file, as `code.splitlines()` gives them. */
    const codeList: seq<string>
    var lineNum: int
    var codeLine: string
    var checkSet: set<char>
    var blankLines: nat
    /** Everything printed so far, in order. */
    var output: seq<Diagnostic>

    /** `check_set` is the set of characters of `code_line`. */
    ghost predicate Valid()
      reads this
    {
      checkSet == CharsOf(codeLine)
    }

    constructor (path: string, codeList: seq<string>)
      ensures this.path == path && this.codeList == codeList
      ensures lineNum == 1 && codeLine == "" && checkSet == {} && blankLines == 0
      ensures output == []
      ensures Valid()
    {
      this.path := path;
      this.codeList := codeList;
      lineNum := 1;
      codeLine := "";
      checkSet := {};
      blankLines := 0;
      output := [];
    }

    /** `whitespace_check`: with `startIndex` 0, the width of the line's
        indentation; otherwise the whitespace counted backwards from
        `startIndex - 1`, where negative positions wrap to the end of the line
        and the count stops before position `-len(code_line)`. */
    method WhitespaceCheck(startIndex: nat) returns (count: nat)
      requires startIndex <= |codeLine|
      ensures count == WhitespaceCount(codeLine, startIndex)
    {
      count := 0;
      if startIndex != 0 {
        var i: int := startIndex - 1;
        while i > -|codeLine|
          invariant -|codeLine| <= i < |codeLine|
          invariant count + WsRunDown(codeLine, i) == WsRunDown(codeLine, startIndex - 1)
          decreases i + |codeLine|
        {
          if IsWhitespace(PyIndex(codeLine, i)) {
            count := count + 1;
          } else {
            break;
          }
          i := i - 1;
        }
      } else {
        var i := 0;
        while i < |codeLine|
          invariant 0 <= i <= |codeLine|
          invariant count == i
          invariant forall j :: 0 <= j < i ==> IsWhitespace(codeLine[j])
        {
          if IsWhitespace(codeLine[i]) {
            count := count + 1;
          } else {
            break;
          }
          i := i + 1;
        }
      }
    }

    /** `code_check`: runs the seven checks on the current line, in order. */
    method CodeCheck()
      requires codeLine != []
      modifies this`output
      ensures output == old(output) + LineOutput(codeLine, lineNum, blankLines)
    {
      var printed := LineChecks.LengthCheck(codeLine, lineNum);
      printed := printed + LineChecks.IndentationCheck(codeLine, lineNum);
      printed := printed + LineChecks.SemicolonCheck(codeLine, lineNum);
      printed := printed + LineChecks.CommentCheck(codeLine, lineNum);
      printed := printed + LineChecks.TodoCheck(codeLine, lineNum);
      printed := printed + LineChecks.BlankLinesError(blankLines, lineNum);
      printed := printed + LineChecks.ClassDefCheck(codeLine, lineNum);
      LineChecks.CodeCheckPieces(codeLine, lineNum, blankLines);
      output := output + printed;
    }

    /** `file_check`: the line loop, then the visitor over `tree`, the module
        that `ast.parse` makes of the file. */
    method FileCheck(tree: Node)
      requires Valid()
      modifies this
      ensures Valid()
      ensures lineNum == old(lineNum) + |codeList|
      ensures blankLines == BlankRun(codeList, old(blankLines))
      ensures codeLine == LastCodeLine(codeList, old(codeLine))
      ensures output == old(output) + Scan(codeList, old(lineNum), old(blankLines)) + Visit(tree)
    {
      ghost var start, b0, line0, out0 := lineNum, blankLines, codeLine, output;
      var k := 0;
      while k < |codeList|
        invariant 0 <= k <= |codeList|
        invariant Valid()
        invariant lineNum == start + k
        invariant blankLines == BlankRun(codeList[..k], b0)
        invariant codeLine == LastCodeLine(codeList[..k], line0)
        invariant output == out0 + Scan(codeList[..k], start, b0)
      {
        var line := codeList[k];
        PassStep(codeList, b0, line0, k);
        if |line| == 0 {
          ScanBlank(out0, codeList, start, b0, k);
          blankLines := blankLines + 1;
        } else {
          codeLine := line;
          checkSet := CharsOf(line);
          CodeCheck();
          ScanStep(out0, codeList, start, b0, k);
          blankLines := 0;
        }
        lineNum := lineNum + 1;
        k := k + 1;
      }
      assert codeList[..k] == codeList;
      output := output + Visit(tree);
    }
  }

  /** Checking one file from a fresh `CodeLines`: the line diagnostics with the
      lines numbered from 1, then the tree diagnostics. */
  method CheckFile(path: string, lines: seq<string>, tree: Node) returns (out: seq<Diagnostic>)
    ensures out == Scan(lines, 1, 0) + Visit(tree)
  {
    var checker := new CodeLines(path, lines);
    checker.FileCheck(tree);
    out := checker.output;
  }

  /** One more pass of the loop appends what `check` prints for the next
      line. */
  lemma OutputsSnoc(check: LineCheck, lines: seq<string>, start: int, b0: nat, k: nat)
    requires k < |lines|
    ensures Flatten(Outputs(check, lines[..k + 1], start, b0)) ==
      Flatten(Outputs(check, lines[..k], start, b0)) + check(lines[k], start + k, BlankRun(lines[..k], b0))
  {
    var prefix := lines[..k + 1];
    assert prefix[..k] == lines[..k];
    var groups: seq<seq<Diagnostic>> := Outputs(check, prefix, start, b0);
    assert groups[..k] == Outputs(check, lines[..k], start, b0);
  }

  /** One more pass of the loop appends what it prints for the next line. */
  lemma ScanSnoc(lines: seq<string>, start: int, b0: nat, k: nat)
    requires k < |lines|
    ensures Scan(lines[..k + 1], start, b0) == Scan(lines[..k], start, b0) + LineOutput(lines[k], start + k, BlankRun(lines[..k], b0))
  {
    OutputsSnoc(LineOutput, lines, start, b0, k);
  }

  /** One pass of the loop over line `k`: how the zero-length run and the
      last non-empty line move on. */
  lemma PassStep(lines: seq<string>, b0: nat, line0: string, k: nat)
    requires k < |lines|
    ensures BlankRun(lines[..k + 1], b0) == if lines[k] == [] then BlankRun(lines[..k], b0) + 1 else 0
    ensures LastCodeLine(lines[..k + 1], line0) == if lines[k] == [] then LastCodeLine(lines[..k], line0) else lines[k]
  {
    var prefix := lines[..k + 1];
    assert prefix[..k] == lines[..k] && prefix[k] == lines[k];
  }

  /** A pass over a zero-length line prints nothing. */
  lemma ScanBlank(out0: seq<Diagnostic>, lines: seq<string>, start: int, b0: nat, k: nat)
    requires k < |lines| && lines[k] == []
    ensures out0 + Scan(lines[..k], start, b0) == out0 + Scan(lines[..k + 1], start, b0)
  {
    ScanSnoc(lines, start, b0, k);
    assert Scan(lines[..k], start, b0) + [] == Scan(lines[..k], start, b0);
  }

  /** What has been printed before the pass over line `k`, followed by what
      `check` prints for it, is what has been printed after it. */
  lemma OutputsStep(check: LineCheck, out0: seq<Diagnostic>, lines: seq<string>, start: int, b0: nat, k: nat)
    requires k < |lines|
    ensures out0 + Flatten(Outputs(check, lines[..k], start, b0)) + check(lines[k], start + k, BlankRun(lines[..k], b0))
      == out0 + Flatten(Outputs(check, lines[..k + 1], start, b0))
  {
    OutputsSnoc(check, lines, start, b0, k);
    AppendAssoc(out0, Flatten(Outputs(check, lines[..k], start, b0)), check(lines[k], start + k, BlankRun(lines[..k], b0)));
  }

  /** A pass over a non-empty line appends what `code_check` prints. */
  lemma ScanStep(out0: seq<Diagnostic>, lines: seq<string>, start: int, b0: nat, k: nat)
    requires k < |lines|
    ensures out0 + Scan(lines[..k], start, b0) + LineOutput(lines[k], start + k, BlankRun(lines[..k], b0))
      == out0 + Scan(lines[..k + 1], start, b0)
  {
    OutputsStep(LineOutput, out0, lines, start, b0, k);
  }

  /** The loop prints only line diagnostics, each for one of the lines it
      passed over and never for a zero-length line. */
  lemma ScanLines(lines: seq<string>, start: int, b0: nat)
    ensures forall d :: d in Scan(lines, start, b0) ==>
      && start <= d.line < start + |lines|
      && lines[d.line - start] != []
      && IsLineCode(d.code)
  {
    LineOutputOwnLine();
    OutputsLines(LineOutput, lines, start, b0);
  }

  /** The diagnostics of line `start + k` are exactly what one pass of the
      loop prints for it, given the zero-length lines before it. */
  lemma ScanAt(lines: seq<string>, start: int, b0: nat, k: nat)
    requires k < |lines|
    ensures AtLine(Scan(lines, start, b0), start + k) == LineOutput(lines[k], start + k, BlankRun(lines[..k], b0))
  {
    LineOutputOwnLine();
    OutputsNumbered(LineOutput, lines, start, b0);
    OutputsAt(LineOutput, lines, start, b0, k);
    FlattenAt(Outputs(LineOutput, lines, start, b0), start, k);
  }

  /** Line numbers never go back: the diagnostics of a line all come before
      those of any later line. */
  lemma ScanAscending(lines: seq<string>, start: int, b0: nat)
    ensures forall i, j :: 0 <= i < j < |Scan(lines, start, b0)| ==>
      Scan(lines, start, b0)[i].line <= Scan(lines, start, b0)[j].line
  {
    LineOutputOwnLine();
    OutputsNumbered(LineOutput, lines, start, b0);
    FlattenAscending(Outputs(LineOutput, lines, start, b0), start);
  }

  /** `blank_lines` exceeds `m` exactly when the last `m + 1` lines exist and
      are zero-length; a line made of whitespace resets the count like any
      other non-empty line. */
  lemma {:induction false} BlankRunAbove(lines: seq<string>, m: nat)
    ensures BlankRun(lines, 0) > m <==>
      m < |lines| && forall i :: |lines| - m - 1 <= i < |lines| ==> lines[i] == []
    decreases |lines|
  {
    if lines != [] && lines[|lines| - 1] == [] && m > 0 {
      var init := lines[..|lines| - 1];
      BlankRunAbove(init, m - 1);
      assert forall i :: 0 <= i < |init| ==> init[i] == lines[i];
    }
  }

  /** More than two zero-length lines run up to line `k` exactly when the
      three lines right before it are zero-length. */
  lemma ThreeBlankBefore(lines: seq<string>, k: nat)
    requires k <= |lines|
    ensures BlankRun(lines[..k], 0) > LineChecks.MaxBlankLines <==>
      k >= 3 && lines[k - 3] == [] && lines[k - 2] == [] && lines[k - 1] == []
  {
    BlankRunAbove(lines[..k], LineChecks.MaxBlankLines);
    if k >= 3 {
      assert lines[..k][k - 3] == lines[k - 3] && lines[..k][k - 2] == lines[k - 2] && lines[..k][k - 1] == lines[k - 1];
    }
  }

  /** S006 on line `k + 1` of a file: reported once exactly when the line is
      not empty and the three lines right before it are zero-length. */
  lemma BlankLinesReported(lines: seq<string>, k: nat)
    requires k < |lines| && lines[k] != []
    ensures |OfCode(AtLine(Scan(lines, 1, 0), k + 1), S006)| ==
      if k >= 3 && lines[k - 3] == [] && lines[k - 2] == [] && lines[k - 1] == [] then 1 else 0
  {
    ScanAt(lines, 1, 0, k);
    ThreeBlankBefore(lines, k);
    LineChecks.CodeCheckBlankLines(lines[k], k + 1, BlankRun(lines[..k], 0));
  }

  /** Every line diagnostic of a file comes before every tree diagnostic. */
  lemma LinesBeforeTree(lines: seq<string>, tree: Node)
    ensures var out := Scan(lines, 1, 0) + Visit(tree);
      forall i, j :: 0 <= i < j < |out| && IsTreeCode(out[i].code) ==> IsTreeCode(out[j].code)
  {
    var a: seq<Diagnostic>, b: seq<Diagnostic> := Scan(lines, 1, 0), Visit(tree);
    ScanLines(lines, 1, 0);
    forall i | 0 <= i < |a|
      ensures !IsTreeCode((a + b)[i].code)
    {
      assert (a + b)[i] == a[i];
    }
    forall j | |a| <= j < |a + b|
      ensures IsTreeCode((a + b)[j].code)
    {
      assert (a + b)[j] == b[j - |a|];
    }
  }
}
