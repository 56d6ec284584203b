# PEP 8 code analyzer, modelled in Dafny

`PEP_Code_Analyzer.py` checks one Python file against a handful of PEP 8
rules and prints one diagnostic per finding:
`<path>: Line <n>: <code> <message>`. It works in two passes.

- **The line scanner, `CodeLines`.** It walks the file's lines and counts
  the zero-length lines before each one. On every non-empty line it runs
  seven checks in a fixed order:
  - S001: the line is too long;
  - S002: the indentation is not a multiple of four;
  - S003: an unnecessary semicolon;
  - S004: fewer or more than two spaces before an inline comment;
  - S005: a `TODO` in a comment;
  - S006: more than two blank lines;
  - the class/def spacing group, S007 and S013.
- **The tree visitor, `PEP8AstVisitor`.** It walks the parsed module in
  pre-order. It reports:
  - class names (S008), function names (S009) and argument names (S010);
  - names assigned to (S011);
  - list displays used as default values (S012).

The model has five modules.

- `Text` (text.dfy) holds the string operations of Python the checks rely
  on, each stated on positions:
  - `index`, `rstrip`, `lower`, negative indexing and substring tests;
  - the two whitespace counts behind `whitespace_check`.
- `Diagnostics` (diagnostics.dfy) holds what is printed. A `Diagnostic`
  carries a line number, a code and a `Message` value; `Render` gives the
  message text. The module also holds:
  - the selections of diagnostics by code and by line;
  - the order of codes within one line;
  - `Flatten`, which joins the diagnostics of consecutive lines.
- `LineChecks` (line_checks.dfy) holds each of the seven checks as a
  function to what it prints, given the line's number. Six checks take the
  current line; `BlankLinesError` takes the count of zero-length lines
  instead.
  - `CodeCheck` runs them in the order of `code_check`.
  - The first six checks each promise to print nothing or one diagnostic of
    their own code at the line's number. The class/def group prints at most
    four, each S007 or S013, at the line's number (`ClassDefCheckLines`).
  - For S003, S004, S005 and both parts of the class/def group, a separate
    predicate states the check's condition on character positions. A lemma
    proves that the check fires exactly when that condition holds.
  - The conditions of S001, S002 and S006 are simple comparisons. They are
    stated in the lemmas about `CodeCheck` as a whole (`CodeCheckReports`,
    `CodeCheckBlankLines`).
- `AstVisitor` (ast_visitor.dfy) holds the tree as a datatype, whose
  children come in the order `generic_visit` reaches them. The visitor is a
  recursive function, proved to be a pre-order walk.
- `Scanner` (code_lines.dfy) holds the class `CodeLines`, with the fields
  of the source.
  - `code_check` and the line loop of `file_check` are methods that update
    those fields.
  - `whitespace_check` is a method that reads the current line and changes
    nothing. Its two loops are proved to compute `WhitespaceCount`. The
    check functions use `WhitespaceCount` directly, since functions cannot
    call methods.
  - The printed output is the field `output`, a sequence that only grows.
  - `FileCheck` is proved against `Scan`, a function that says what the
    loop prints for a list of lines.
  - The lemmas about `Scan` state what a whole file gets:
    - line numbers;
    - the S006 rule over runs of zero-length lines;
    - the order of line diagnostics;
    - that every line diagnostic comes before every tree diagnostic.

The scanner's `check_set` field is kept, with the invariant `Valid()`:
`check_set` is the set of characters of `code_line`. `FileCheck` keeps this
invariant. Under it, a test `c in self.check_set` is the test `c in line`,
and the check functions are written that way. The field is kept only to
mirror the source's state: no other contract depends on it.

## Model

| member | source | states |
|---|---|---|
| `Text.IndexOf` | PEP_Code_Analyzer.py:90 | `str.index`: the result is a position holding the character, and no earlier position holds it |
| `Text.RStrip` | PEP_Code_Analyzer.py:92 | `rstrip()`: the result is a prefix of the string, everything cut off is whitespace, and the result does not end in whitespace |
| `Text.RStripEndsWith` | PEP_Code_Analyzer.py:92-93 | for a non-whitespace `c`, `rstrip().endswith(c)` holds exactly when some `c` is followed only by whitespace up to the end |
| `Text.Lower` | PEP_Code_Analyzer.py:96 | `lower()`: same length, each character lower-cased on its own |
| `Text.LowerSuffix` | PEP_Code_Analyzer.py:96 | lower-casing the slice from the first `#` equals slicing the lower-cased line |
| `Text.ContainsInSuffix` | PEP_Code_Analyzer.py:97 | `todo` occurs in a slice from `h` exactly when it occurs in the whole string at some position at or after `h` |
| `Text.IndentWidth` | PEP_Code_Analyzer.py:81-85 | the indentation count is the length of the longest all-whitespace prefix: at most the line's length, whitespace up to it, and not whitespace at it |
| `Text.WsRunDown` | PEP_Code_Analyzer.py:74-79 | the backward count from `i` is at most the number of positions the range visits, and it is positive only when the character at `i`, with Python's negative indexing, is whitespace |
| `Text.WhitespaceCount` | PEP_Code_Analyzer.py:68-86 | what `whitespace_check(start)` returns is at most the line's length for start 0, and less than `start` plus the line's length otherwise |
| `Text.RunDownFromPosition` | PEP_Code_Analyzer.py:75-79 | counting backwards from a non-negative position gives the whitespace run ending there, continued from the end of the line when that run reaches position 0 |
| `Text.RunDownWrapped` | PEP_Code_Analyzer.py:75-79 | once the count has wrapped to negative positions, it is the whitespace run at the end of the line, and it stops at the first non-whitespace character |
| `Text.CommentGapCases` | PEP_Code_Analyzer.py:74-79 | the count before the first `#`: the whitespace run right before it, or, when only whitespace precedes the `#`, that many plus the line's trailing whitespace |
| `Scanner.CodeLines.WhitespaceCheck` | PEP_Code_Analyzer.py:68-86 | the loops return `WhitespaceCount`: the indentation width for start 0, otherwise the backward count with Python's negative indices |
| `LineChecks.SymbolMembership` | PEP_Code_Analyzer.py:88-98 | no contract of its own: `symbol_membership`'s two tests, with the `None` result as `false`; `SymbolMembershipSpec` states what they decide |
| `LineChecks.SymbolMembershipSpec` | PEP_Code_Analyzer.py:88-98 | for `;`, true exactly when some `;` before the first `#` is followed only by whitespace up to the `#`; for `todo`, true exactly when `todo` starts in the lower-cased line at or after the first `#` |
| `LineChecks.LengthCheck` | PEP_Code_Analyzer.py:100-104 | prints nothing or one S001 at the line's number |
| `LineChecks.IndentationCheck` | PEP_Code_Analyzer.py:106-111 | prints nothing or one S002 at the line's number; needs a non-empty line, because the source reads `code_line[0]` |
| `LineChecks.SemicolonCheck` | PEP_Code_Analyzer.py:113-120 | prints nothing or one S003 at the line's number |
| `LineChecks.SemicolonCheckSpec` | PEP_Code_Analyzer.py:113-120 | S003 fires exactly when the line has a `;` and either, with a `#`, the last non-whitespace character before the first `#` is a `;`, or, without a `#`, the raw line ends in `;` |
| `LineChecks.CommentCheck` | PEP_Code_Analyzer.py:122-130 | prints nothing or one S004 at the line's number |
| `LineChecks.CommentCheckSpec` | PEP_Code_Analyzer.py:122-130 | S004 fires exactly when the line has a `#`, does not start with `#`, and the whitespace before the first `#` is not two, counted as in `CommentGapCases` (indented full-line comments included) |
| `LineChecks.TodoCheck` | PEP_Code_Analyzer.py:132-136 | prints nothing or one S005 at the line's number |
| `LineChecks.TodoCheckSpec` | PEP_Code_Analyzer.py:132-136 | S005 fires exactly when the line has a `#` and `todo`, in any case, starts at or after the first `#` |
| `LineChecks.BlankLinesError` | PEP_Code_Analyzer.py:138-141 | prints nothing or one S006 at the line's number |
| `LineChecks.SpacesAfterClassDef` | PEP_Code_Analyzer.py:143-146 | prints nothing or one S007 at the line's number |
| `LineChecks.MatchSpacedKeywordSpec` | PEP_Code_Analyzer.py:145 | the search of `.*?(class\|def)\s\w+?` from position `p` succeeds exactly when `class` or `def`, one whitespace character and a word character start at some position from `p` on, with no line feed before it |
| `LineChecks.SpacesAfterClassDefSpec` | PEP_Code_Analyzer.py:143-146 | the keyword S007 fires exactly when no such spaced keyword starts before the first line feed; the mode only changes the message |
| `LineChecks.SpacesAfterClassDefName` | PEP_Code_Analyzer.py:148-157 | prints nothing or one diagnostic, S013 or S007, at the line's number |
| `LineChecks.SpacesAfterClassDefNameSpec` | PEP_Code_Analyzer.py:148-157 | with a `(`, S013 fires exactly when whitespace precedes the first `(`, where the character before position 0 is the last character of the line. Only without a `(`, S007 fires exactly when whitespace precedes the first `:`. Nothing fires with neither |
| `LineChecks.ClassDefCheck` | PEP_Code_Analyzer.py:159-166 | no contract of its own: the group runs for `class` and then for `def`, each when its keyword is a substring of the line; `ClassDefCheckSpec`, `ClassDefCheckOrder` and `ClassDefCheckLines` state its properties |
| `LineChecks.ClassDefGroupSpec` | PEP_Code_Analyzer.py:161-166 | one run of the group quotes only its mode's keyword, has the keyword diagnostic exactly when no spaced keyword occurs before the first line feed, and has the name diagnostic (S013 with a `(`, S007 otherwise) exactly when whitespace precedes the name |
| `LineChecks.ClassDefCheckSpec` | PEP_Code_Analyzer.py:159-166 | for each mode, the keyword diagnostic is reported exactly when its keyword is a substring of the line and no spaced keyword occurs, and the name diagnostic exactly when its keyword is a substring and whitespace precedes the name |
| `LineChecks.ClassDefCheckOrder` | PEP_Code_Analyzer.py:159-166 | every diagnostic quoting `class` comes before every diagnostic quoting `def` |
| `LineChecks.ClassDefCheckLines` | PEP_Code_Analyzer.py:159-166 | the class/def group prints at most four diagnostics, all at the line's number with S007 or S013, and nothing unless `class` or `def` is a substring of the line |
| `LineChecks.CodeCheck` | PEP_Code_Analyzer.py:168-179 | no contract of its own: the checks of `CheckOrder` run one after another on a non-empty line; the `CodeCheck…` lemmas below state its properties |
| `LineChecks.CodeCheckPieces` | PEP_Code_Analyzer.py:168-179 | `code_check` prints what the seven checks print, joined in the order it calls them |
| `LineChecks.CodeCheckLines` | PEP_Code_Analyzer.py:168-179 | every diagnostic of a line is at that line's number and has a line code (S001-S007, S013) |
| `LineChecks.CodeCheckOrder` | PEP_Code_Analyzer.py:168-179 | the diagnostics of a line come in the order S001, S002, S003, S004, S005, S006, then S007/S013 (between the class and the def group: `ClassDefCheckOrder`) |
| `LineChecks.CodeCheckReports` | PEP_Code_Analyzer.py:100-141 | each of S001-S006 appears at most once per line. Each appears exactly when its condition holds: longer than 79 (S001); first character whitespace and indentation width not a multiple of 4 (S002); the S003/S004/S005 conditions above; more than two zero-length lines before it (S006) |
| `LineChecks.CodeCheckBlankLines` | PEP_Code_Analyzer.py:138-141 | S006 appears once exactly when more than two zero-length lines precede the line, otherwise not at all |
| `AstVisitor.ClassNameCheck` | PEP_Code_Analyzer.py:16-19 | S008 at the class's line, with the name. It fires exactly when the name is empty or starts with a word character other than A-Z |
| `AstVisitor.FunctionNameCheck` | PEP_Code_Analyzer.py:25-26 | S009 at the def's line fires exactly when the name is empty or starts with A-Z |
| `AstVisitor.ArgumentChecks` | PEP_Code_Analyzer.py:27-30 | as many S010s as there are positional parameters starting with A-Z, all at the def's line (which and in what order: `ArgumentChecksNames`, `ArgumentChecksInOrder`) |
| `AstVisitor.ArgumentChecksInOrder` | PEP_Code_Analyzer.py:27-30 | the S010s come in parameter order: the `k`-th names the `k`-th parameter starting with A-Z, with the positions given by `UpperIndicesFrom`, which is strictly increasing and holds exactly those positions |
| `AstVisitor.ArgumentChecksNames` | PEP_Code_Analyzer.py:27-30 | every S010 names a parameter starting with A-Z, and every such parameter is named |
| `AstVisitor.DefaultChecks` | PEP_Code_Analyzer.py:31-33 | one S012 at the def's line per default that is a list display, and no other |
| `AstVisitor.FunctionCheck` | PEP_Code_Analyzer.py:22-34 | everything `visit_FunctionDef` prints itself is at the def's line |
| `AstVisitor.FunctionCheckOrder` | PEP_Code_Analyzer.py:22-34 | within one def, S009 comes first, then the S010s, then the S012s |
| `AstVisitor.VariableCheck` | PEP_Code_Analyzer.py:36-42 | S011 at the name's own line fires exactly when the name is an assignment target starting with A-Z |
| `AstVisitor.Visit` | PEP_Code_Analyzer.py:16-42 | the visitor reports tree codes (S008-S012) only |
| `AstVisitor.VisitIsPreorder` | PEP_Code_Analyzer.py:16-42 | the visitor's output is each node's own diagnostics, node after node in pre-order, so a node's own diagnostics come before its descendants' |
| `AstVisitor.VisitReports` | PEP_Code_Analyzer.py:16-42 | a diagnostic is reported for a tree exactly when some node of the tree reports it itself |
| `Diagnostics.Render` | PEP_Code_Analyzer.py:19-157 | no contract of its own: the text each `print` puts after the code |
| `Scanner.CodeLines.constructor` | PEP_Code_Analyzer.py:48-66 | line number 1, empty current line and character set, no blank lines, nothing printed; the invariant holds |
| `Scanner.CodeLines.CodeCheck` | PEP_Code_Analyzer.py:168-179 | the seven checks on the current line append exactly `code_check`'s diagnostics for it, at the current line number and blank count |
| `Scanner.CodeLines.FileCheck` | PEP_Code_Analyzer.py:181-192 | after the loop: the line number has advanced by the number of lines, and `blank_lines` and `code_line` are as the lines leave them. The loop has appended `Scan` of the lines, then the visitor's output for the tree; the `check_set` invariant is kept |
| `Scanner.CheckFile` | PEP_Code_Analyzer.py:199-200 | checking a file from a fresh scanner prints `Scan` of its lines numbered from 1, then the visitor's output |
| `Scanner.LineOutput` | PEP_Code_Analyzer.py:183-189 | no contract of its own: what one pass of the loop prints, nothing for a zero-length line and `code_check` otherwise; `LineOutputOwnLine` states its property |
| `Scanner.Scan` | PEP_Code_Analyzer.py:181-190 | no contract of its own: one pass per line with the line number and blank count of that pass, joined in order; `ScanLines`, `ScanAt`, `ScanAscending` and `BlankLinesReported` state its properties |
| `Scanner.LineOutputOwnLine` | PEP_Code_Analyzer.py:182-189 | one pass prints nothing for a zero-length line, and only line diagnostics at its own line number otherwise |
| `Scanner.ScanLines` | PEP_Code_Analyzer.py:181-190 | every line diagnostic has a line code and the number of one of the lines; that line is not zero-length |
| `Scanner.ScanAt` | PEP_Code_Analyzer.py:181-190 | the diagnostics at number `start + k` are exactly what one pass prints for line `k`, given the zero-length lines before it |
| `Scanner.ScanAscending` | PEP_Code_Analyzer.py:181-190 | line numbers never go back in the loop's output |
| `Scanner.BlankRunAbove` | PEP_Code_Analyzer.py:183-189 | `blank_lines` exceeds `m` exactly when the last `m + 1` lines are zero-length; a whitespace-only line resets it |
| `Scanner.BlankLinesReported` | PEP_Code_Analyzer.py:183-189 | on non-empty line `k + 1` of a file, S006 appears once exactly when the three lines before it are zero-length, otherwise not at all |
| `Scanner.LinesBeforeTree` | PEP_Code_Analyzer.py:181-192 | in a file's output every line diagnostic comes before every tree diagnostic |

## Left out

- `main` and the opening and reading in `file_open` (PEP_Code_Analyzer.py:195-216) are I/O. `CheckFile` starts from the file's lines and its parsed tree.
- `ast.parse` (PEP_Code_Analyzer.py:191) is a library parser. The tree is an input of `FileCheck`. A `SyntaxError`, raised after the line diagnostics are printed, is not modelled.
- The `ast.NodeVisitor` dispatch is replaced by the `Node` datatype, whose children are listed in `generic_visit` order.
- `AsyncFunctionDef`, positional-only, keyword-only, `*args` and `**kwargs` parameters and keyword-only defaults produce no diagnostics of their own in the source. They are `Other` nodes, or are part of a `FunctionDef`'s `signature` children.
- `print` is modelled as appending a `Diagnostic` value to `output`.
  - The path prefix and the `Line <n>:` formatting are not modelled.
  - Nor is the visitor's `path`.
- `str.splitlines` (PEP_Code_Analyzer.py:63) is not modelled: the scanner is built from the list of lines. The raw `code` field is therefore not kept.
- Python's Unicode rules are replaced by ASCII approximations:
  - whitespace is the six characters of `string.whitespace`, also for `rstrip()` and `\s`;
  - word characters are `[A-Za-z0-9_]`;
  - `lower()` changes only A-Z.
- `symbol_membership` returns `None` instead of `False` when nothing matches. It is modelled as a `bool`.
- `LineChecks.CodeCheckOrder`: the S007/S013 diagnostics of the class group and of the def group share one rank. That the class group comes first is stated separately, by `ClassDefCheckOrder`.
