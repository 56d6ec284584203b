/** The per-line checks of `CodeLines` (S001-S007 and S013): each one looks at
    the text of the current line and yields the diagnostics it prints, as a
    sequence of zero or more entries. `CodeCheck` runs them all, in the order
    of `code_check`. */
module LineChecks {
  import opened Text
  import opened Diagnostics

  const MaxLineLength := 79
  const IndentationUnit := 4
  const CommentSpacing := 2
  const MaxBlankLines := 2

  /** The `mode` argument of the class/def checks; it only changes the message. */
  datatype Mode = Class | Def

  function Keyword(mode: Mode): string {
    match mode
    case Class => "class"
    case Def => "def"
  }

  /** The `symbol` argument of `symbol_membership`. */
  datatype Symbol = Semicolon | Todo

  /** `symbol_membership`: whether the text before the first `#`, stripped of
      trailing whitespace, ends in `;`, or whether the lower-cased text from
      the first `#` on contains `todo`. */
  function SymbolMembership(line: string, symbol: Symbol): bool
    requires '#' in line
  {
    var hash := IndexOf(line, '#');
    match symbol
    case Semicolon => EndsWith(RStrip(line[..hash]), ';')
    case Todo => Contains(Lower(line[hash..]), "todo")
  }

  /** What `symbol_membership` decides, stated on positions: for `;`, some
      `;` before the first `#` is followed only by whitespace up to it; for
      `todo`, `todo` starts in the lower-cased line at or after the first `#`. */
  lemma SymbolMembershipSpec(line: string, symbol: Symbol)
    requires '#' in line
    ensures var hash := IndexOf(line, '#');
      SymbolMembership(line, symbol) <==>
        (match symbol
         case Semicolon =>
           exists j :: 0 <= j < hash && line[j] == ';' && forall m :: j < m < hash ==> IsWhitespace(line[m])
         case Todo => exists p :: hash <= p && OccursAt(Lower(line), "todo", p))
  {
    match symbol {
      case Semicolon =>
        SemicolonMembership(line);
      case Todo =>
        LowerSuffix(line, IndexOf(line, '#'));
        ContainsInSuffix(Lower(line), IndexOf(line, '#'), "todo");
    }
  }

  /** The `;` case of `SymbolMembershipSpec`: the text before the first `#`,
      stripped of trailing whitespace, ends in `;` exactly when some `;` there
      is followed only by whitespace. */
  lemma SemicolonMembership(line: string)
    requires '#' in line
    ensures var hash := IndexOf(line, '#');
      SymbolMembership(line, Semicolon) <==>
        exists j :: 0 <= j < hash && line[j] == ';' && forall m :: j < m < hash ==> IsWhitespace(line[m])
  {
    var hash := IndexOf(line, '#');
    RStripEndsWith(line[..hash], ';');
    assert forall j :: 0 <= j < hash ==> line[..hash][j] == line[j];
  }

  /** `length_check` (S001). */
  function LengthCheck(line: string, num: int): (r: seq<Diagnostic>)
    ensures Reports(r, num, S001)
  {
    if |line| > MaxLineLength then
      [Diagnostic(num, S001, TooLong)]
    else []
  }

  /** `indentation_check` (S002). */
  function IndentationCheck(line: string, num: int): (r: seq<Diagnostic>)
    requires line != []
    ensures Reports(r, num, S002)
  {
    if IsWhitespace(line[0]) && WhitespaceCount(line, 0) % IndentationUnit != 0 then
      [Diagnostic(num, S002, BadIndentation)]
    else []
  }

  /** The condition of S003, stated on positions: the line holds a `;` and
      either its last non-whitespace character before the first `#` is a `;`,
      or it has no `#` and its very last character is a `;`. */
  ghost predicate UnneededSemicolon(line: string) {
    ';' in line &&
    if '#' in line then
      var hash := IndexOf(line, '#');
      exists j :: 0 <= j < hash && line[j] == ';' &&
        forall m :: j < m < hash ==> IsWhitespace(line[m])
    else
      EndsWith(line, ';')
  }

  /** `semicolon_check` (S003). */
  function SemicolonCheck(line: string, num: int): (r: seq<Diagnostic>)
    ensures Reports(r, num, S003)
  {
    if ';' in line then
      if '#' in line then
        if SymbolMembership(line, Semicolon) then [Diagnostic(num, S003, UnnecessarySemicolon)] else []
      else if EndsWith(line, ';') then [Diagnostic(num, S003, UnnecessarySemicolon)]
      else []
    else []
  }

  /** S003 is reported exactly when the line ends its code in a `;`. */
  lemma SemicolonCheckSpec(line: string, num: int)
    ensures SemicolonCheck(line, num) != [] <==> UnneededSemicolon(line)
  {
    if ';' in line && '#' in line {
      SymbolMembershipSpec(line, Semicolon);
    }
  }

  /** The condition of S004: the line holds a `#` that does not open it, and
      the whitespace counted before the first `#` is not exactly two. When
      some other character precedes the `#`, that count is the run of
      whitespace right before it; when only whitespace precedes it (an
      indented full-line comment), the count carries on from the end of the
      line through its trailing whitespace. */
  ghost predicate InlineCommentMisplaced(line: string) {
    '#' in line && line[0] != '#' &&
    var hash := IndexOf(line, '#');
    if RunBefore(line, hash) < hash then RunBefore(line, hash) != CommentSpacing
    else hash + RunBefore(line, |line|) != CommentSpacing
  }

  /** `comment_check` (S004). */
  function CommentCheck(line: string, num: int): (r: seq<Diagnostic>)
    ensures Reports(r, num, S004)
  {
    if '#' in line then
      if line[0] == '#' then []
      else if WhitespaceCount(line, IndexOf(line, '#')) != CommentSpacing then
        [Diagnostic(num, S004, CommentTooClose)]
      else []
    else []
  }

  /** S004 is reported exactly when an inline comment is misplaced. */
  lemma CommentCheckSpec(line: string, num: int)
    ensures CommentCheck(line, num) != [] <==> InlineCommentMisplaced(line)
  {
    if '#' in line && line[0] != '#' {
      CommentGapCases(line, IndexOf(line, '#'));
    }
  }

  /** The condition of S005: the line holds a `#` and `todo` occurs in the
      lower-cased line at or after the first `#`. */
  ghost predicate TodoInComment(line: string) {
    '#' in line && exists p :: IndexOf(line, '#') <= p && OccursAt(Lower(line), "todo", p)
  }

  /** `todo_check` (S005). */
  function TodoCheck(line: string, num: int): (r: seq<Diagnostic>)
    ensures Reports(r, num, S005)
  {
    if Contains(Lower(line), "todo") && '#' in line && SymbolMembership(line, Todo) then
      [Diagnostic(num, S005, TodoFound)]
    else []
  }

  /** S005 is reported exactly when `todo`, in any case, follows the first
      `#`. */
  lemma TodoCheckSpec(line: string, num: int)
    ensures TodoCheck(line, num) != [] <==> TodoInComment(line)
  {
    if '#' in line {
      SymbolMembershipSpec(line, Todo);
      ContainsInSuffix(Lower(line), 0, "todo");
      assert Lower(line)[0..] == Lower(line);
    }
  }

  /** `blank_lines_error` (S006). */
  function BlankLinesError(blank: nat, num: int): (r: seq<Diagnostic>)
    ensures Reports(r, num, S006)
  {
    if blank > MaxBlankLines then
      [Diagnostic(num, S006, TooManyBlankLines)]
    else []
  }

  /** `class` or `def` occurs at position `p`, followed by one whitespace
      character and a word character. */
  predicate SpacedKeywordAt(line: string, p: nat) {
    (OccursAt(line, "class", p) && p + 6 < |line| &&
     IsWhitespace(line[p + 5]) && IsWordChar(line[p + 6])) ||
    (OccursAt(line, "def", p) && p + 4 < |line| &&
     IsWhitespace(line[p + 3]) && IsWordChar(line[p + 4]))
  }

  /** When the regular expression `.*?(class|def)\s\w+?` matches at the start
      of `line`: the lazy `.*?` (which does not cross a line feed) skips to
      some position where a spaced keyword starts. */
  ghost predicate KeywordSpaced(line: string) {
    exists p :: 0 <= p <= |line| && '\n' !in line[..p] && SpacedKeywordAt(line, p)
  }

  /** The search `re.match` performs for that expression from position `p`:
      try a spaced keyword here, otherwise let `.*?` consume one more
      character, which must not be a line feed. */
  function MatchSpacedKeyword(line: string, p: nat): bool
    requires p <= |line|
    decreases |line| - p
  {
    if SpacedKeywordAt(line, p) then true
    else if p == |line| || line[p] == '\n' then false
    else MatchSpacedKeyword(line, p + 1)
  }

  /** The search from `p` succeeds exactly when a spaced keyword starts at
      some position from `p` on that no line feed precedes. */
  lemma {:induction false} MatchSpacedKeywordSpec(line: string, p: nat)
    requires p <= |line| && '\n' !in line[..p]
    ensures MatchSpacedKeyword(line, p) <==>
      exists q :: p <= q <= |line| && '\n' !in line[..q] && SpacedKeywordAt(line, q)
    decreases |line| - p
  {
    if SpacedKeywordAt(line, p) {
    } else if p == |line| || line[p] == '\n' {
      assert forall q :: p < q <= |line| ==> line[p] in line[..q];
    } else {
      assert line[..p + 1] == line[..p] + [line[p]];
      MatchSpacedKeywordSpec(line, p + 1);
    }
  }

  /** `spaces_after_class_def` (the keyword part of S007). */
  function SpacesAfterClassDef(line: string, mode: Mode, num: int): (r: seq<Diagnostic>)
    ensures Reports(r, num, S007)
  {
    if !MatchSpacedKeyword(line, 0) then
      [Diagnostic(num, S007, SpacesAfterKeyword(Keyword(mode)))]
    else []
  }

  /** The keyword part of S007 is reported exactly when the line has no
      `class` or `def` followed by a single whitespace character and a word
      character before its first line feed. */
  lemma SpacesAfterClassDefSpec(line: string, mode: Mode, num: int)
    ensures SpacesAfterClassDef(line, mode, num) != [] <==> !KeywordSpaced(line)
  {
    MatchSpacedKeywordSpec(line, 0);
  }

  /** The character right before position `i` is whitespace, where the one
      before position 0 is the last character of the line. */
  ghost predicate WhitespaceBefore(line: string, i: nat)
    requires i < |line|
  {
    IsWhitespace(if i == 0 then line[|line| - 1] else line[i - 1])
  }

  /** `spaces_after_class_def_name` (S013 before `(`, S007 before `:`). */
  function SpacesAfterClassDefName(line: string, mode: Mode, num: int): (r: seq<Diagnostic>)
    ensures Reports(r, num, S013) || Reports(r, num, S007)
  {
    if '(' in line then
      if IsWhitespace(PyIndex(line, IndexOf(line, '(') - 1)) then
        [Diagnostic(num, S013, SpacesAfterName(Keyword(mode)))]
      else []
    else if ':' in line then
      if IsWhitespace(PyIndex(line, IndexOf(line, ':') - 1)) then
        [Diagnostic(num, S007, SpacesAfterName(Keyword(mode)))]
      else []
    else []
  }

  /** With a `(` in the line, S013 is reported exactly when whitespace
      precedes the first `(`; otherwise, with a `:`, S007 is reported
      exactly when whitespace precedes the first `:`; a line with neither
      reports nothing. */
  lemma SpacesAfterClassDefNameSpec(line: string, mode: Mode, num: int)
    ensures var r := SpacesAfterClassDefName(line, mode, num);
      && ('(' in line ==> Reports(r, num, S013) && (r != [] <==> WhitespaceBefore(line, IndexOf(line, '('))))
      && ('(' !in line && ':' in line ==>
            Reports(r, num, S007) && (r != [] <==> WhitespaceBefore(line, IndexOf(line, ':'))))
      && ('(' !in line && ':' !in line ==> r == [])
  {
  }

  /** One run of the class/def group for `mode`. */
  function ClassDefGroup(line: string, mode: Mode, num: int): seq<Diagnostic> {
    SpacesAfterClassDef(line, mode, num) + SpacesAfterClassDefName(line, mode, num)
  }

  /** `class_def_check`: the group runs once when `class` occurs anywhere in
      the line and once more when `def` does. */
  function ClassDefCheck(line: string, num: int): seq<Diagnostic> {
    (if Contains(line, "class") then ClassDefGroup(line, Class, num) else [])
    + (if Contains(line, "def") then ClassDefGroup(line, Def, num) else [])
  }

  /** The class/def checks report at most four diagnostics, all at the
      line's own number and with S007 or S013, and nothing for a line that
      holds neither `class` nor `def`. */
  lemma ClassDefCheckLines(line: string, num: int)
    ensures var r := ClassDefCheck(line, num);
      && |r| <= 4
      && (forall d :: d in r ==> d.line == num && (d.code == S007 || d.code == S013))
      && (!Contains(line, "class") && !Contains(line, "def") ==> r == [])
  {
  }

  /** The keyword a class/def message quotes; empty for every other message. */
  function KeywordOf(m: Message): string {
    match m
    case SpacesAfterKeyword(keyword) => keyword
    case SpacesAfterName(keyword) => keyword
    case _ => ""
  }

  /** Whitespace right before the class or function name: before the first
      `(` when the line has one, otherwise before the first `:`. */
  ghost predicate SpaceBeforeName(line: string) {
    if '(' in line then WhitespaceBefore(line, IndexOf(line, '('))
    else ':' in line && WhitespaceBefore(line, IndexOf(line, ':'))
  }

  /** The code of the name part of the group: S013 when the line has a `(`,
      S007 otherwise. */
  function NameCode(line: string): Code {
    if '(' in line then S013 else S007
  }

  /** `class_def_check` runs the group for each keyword that is a substring
      of the line: the keyword diagnostic for a mode is reported exactly when
      its keyword occurs and no spaced keyword does, and the name diagnostic
      exactly when its keyword occurs and whitespace precedes the name. */
  lemma ClassDefCheckSpec(line: string, num: int, mode: Mode)
    ensures var r := ClassDefCheck(line, num);
      && (Diagnostic(num, S007, SpacesAfterKeyword(Keyword(mode))) in r <==>
            Contains(line, Keyword(mode)) && !KeywordSpaced(line))
      && (Diagnostic(num, NameCode(line), SpacesAfterName(Keyword(mode))) in r <==>
            Contains(line, Keyword(mode)) && SpaceBeforeName(line))
  {
    var a := if Contains(line, "class") then ClassDefGroup(line, Class, num) else [];
    var b := if Contains(line, "def") then ClassDefGroup(line, Def, num) else [];
    ClassDefGroupSpec(line, Class, num);
    ClassDefGroupSpec(line, Def, num);
    KeywordGroups(a, b);
  }

  /** In what `class_def_check` reports, the diagnostics quoting `class` come
      before those quoting `def`. */
  lemma ClassDefCheckOrder(line: string, num: int)
    ensures var r := ClassDefCheck(line, num);
      forall i, j :: 0 <= i < j < |r| && KeywordOf(r[j].message) == "class" ==> KeywordOf(r[i].message) == "class"
  {
    var a := if Contains(line, "class") then ClassDefGroup(line, Class, num) else [];
    var b := if Contains(line, "def") then ClassDefGroup(line, Def, num) else [];
    ClassDefGroupSpec(line, Class, num);
    ClassDefGroupSpec(line, Def, num);
    KeywordGroups(a, b);
  }

  /** Joining a group that quotes `class` and one that quotes `def`: each
      diagnostic of the join comes from the group of its keyword, and the
      `class` ones come first. */
  lemma KeywordGroups(a: seq<Diagnostic>, b: seq<Diagnostic>)
    requires forall d :: d in a ==> KeywordOf(d.message) == "class"
    requires forall d :: d in b ==> KeywordOf(d.message) == "def"
    ensures forall d :: d in a + b && KeywordOf(d.message) == "class" ==> d in a
    ensures forall d :: d in a + b && KeywordOf(d.message) == "def" ==> d in b
    ensures forall i, j :: 0 <= i < j < |a + b| && KeywordOf((a + b)[j].message) == "class" ==>
      KeywordOf((a + b)[i].message) == "class"
  {
    forall i, j | 0 <= i < j < |a + b| && KeywordOf((a + b)[j].message) == "class"
      ensures KeywordOf((a + b)[i].message) == "class"
    {
      if j < |a| {
        assert (a + b)[i] in a;
      }
    }
  }

  /** One run of the group for `mode`: every diagnostic quotes the mode's
      keyword; the keyword diagnostic is there exactly when no spaced keyword
      occurs, the name diagnostic exactly when whitespace precedes the name. */
  lemma ClassDefGroupSpec(line: string, mode: Mode, num: int)
    ensures var g := ClassDefGroup(line, mode, num);
      && (forall d :: d in g ==> KeywordOf(d.message) == Keyword(mode))
      && (Diagnostic(num, S007, SpacesAfterKeyword(Keyword(mode))) in g <==> !KeywordSpaced(line))
      && (Diagnostic(num, NameCode(line), SpacesAfterName(Keyword(mode))) in g <==> SpaceBeforeName(line))
  {
    SpacesAfterClassDefSpec(line, mode, num);
    SpacesAfterClassDefNameSpec(line, mode, num);
  }

  /** The checks `code_check` calls, one per method. */
  datatype Check =
    | LengthRule | IndentationRule | SemicolonRule | CommentRule
    | TodoRule | BlankLinesRule | ClassDefRule

  /** The order in which `code_check` calls them. */
  const CheckOrder: seq<Check> :=
    [LengthRule, IndentationRule, SemicolonRule, CommentRule, TodoRule, BlankLinesRule, ClassDefRule]

  /** What check `c` prints for a non-empty line. */
  function RunCheck(c: Check, line: string, num: int, blank: nat): seq<Diagnostic>
    requires line != []
  {
    match c
    case LengthRule => LengthCheck(line, num)
    case IndentationRule => IndentationCheck(line, num)
    case SemicolonRule => SemicolonCheck(line, num)
    case CommentRule => CommentCheck(line, num)
    case TodoRule => TodoCheck(line, num)
    case BlankLinesRule => BlankLinesError(blank, num)
    case ClassDefRule => ClassDefCheck(line, num)
  }

  /** What the checks `checks` print, one after another. */
  function RunChecks(checks: seq<Check>, line: string, num: int, blank: nat): seq<Diagnostic>
    requires line != []
  {
    if checks == [] then [] else RunCheck(checks[0], line, num, blank) + RunChecks(checks[1..], line, num, blank)
  }

  /** `code_check`: all checks of one non-empty line, in their fixed order.
      `blank` is the number of zero-length lines right before it. */
  function CodeCheck(line: string, num: int, blank: nat): seq<Diagnostic>
    requires line != []
  {
    RunChecks(CheckOrder, line, num, blank)
  }

  lemma RunChecksCons(c: Check, checks: seq<Check>, line: string, num: int, blank: nat)
    requires line != []
    ensures RunChecks([c] + checks, line, num, blank) == RunCheck(c, line, num, blank) + RunChecks(checks, line, num, blank)
  {
    assert ([c] + checks)[1..] == checks;
  }

  /** Seven checks run one after another print what each prints, joined in
      order. */
  lemma RunChecksSeven(c1: Check, c2: Check, c3: Check, c4: Check, c5: Check, c6: Check, c7: Check,
                       line: string, num: int, blank: nat)
    requires line != []
    ensures RunChecks([c1, c2, c3, c4, c5, c6, c7], line, num, blank) ==
      RunCheck(c1, line, num, blank) + RunCheck(c2, line, num, blank) + RunCheck(c3, line, num, blank)
      + RunCheck(c4, line, num, blank) + RunCheck(c5, line, num, blank) + RunCheck(c6, line, num, blank)
      + RunCheck(c7, line, num, blank)
  {
    var r1, r2, r3 := RunCheck(c1, line, num, blank), RunCheck(c2, line, num, blank), RunCheck(c3, line, num, blank);
    var r4, r5, r6 := RunCheck(c4, line, num, blank), RunCheck(c5, line, num, blank), RunCheck(c6, line, num, blank);
    var r7 := RunCheck(c7, line, num, blank);
    RunChecksCons(c7, [], line, num, blank);
    AppendNil(r7);
    RunChecksCons(c6, [c7], line, num, blank);
    RunChecksCons(c5, [c6, c7], line, num, blank);
    RunChecksCons(c4, [c5, c6, c7], line, num, blank);
    RunChecksCons(c3, [c4, c5, c6, c7], line, num, blank);
    RunChecksCons(c2, [c3, c4, c5, c6, c7], line, num, blank);
    RunChecksCons(c1, [c2, c3, c4, c5, c6, c7], line, num, blank);
    AppendAssoc(r1, r2, r3 + (r4 + (r5 + (r6 + r7))));
    AppendAssoc(r1 + r2, r3, r4 + (r5 + (r6 + r7)));
    AppendAssoc(r1 + r2 + r3, r4, r5 + (r6 + r7));
    AppendAssoc(r1 + r2 + r3 + r4, r5, r6 + r7);
    AppendAssoc(r1 + r2 + r3 + r4 + r5, r6, r7);
  }

  /** What `code_check` prints is what the seven checks print, joined in
      order. */
  lemma CodeCheckPieces(line: string, num: int, blank: nat)
    requires line != []
    ensures CodeCheck(line, num, blank) ==
      LengthCheck(line, num) + IndentationCheck(line, num) + SemicolonCheck(line, num)
      + CommentCheck(line, num) + TodoCheck(line, num) + BlankLinesError(blank, num)
      + ClassDefCheck(line, num)
  {
    RunChecksSeven(LengthRule, IndentationRule, SemicolonRule, CommentRule, TodoRule, BlankLinesRule, ClassDefRule,
      line, num, blank);
  }

  /** Every diagnostic of a line is reported at that line's number and
      carries one of the line codes. */
  lemma CodeCheckLines(line: string, num: int, blank: nat)
    requires line != []
    ensures forall d :: d in CodeCheck(line, num, blank) ==> d.line == num && IsLineCode(d.code)
  {
    CodeCheckPieces(line, num, blank);
    ClassDefCheckLines(line, num);
    PiecesLines(LengthCheck(line, num), IndentationCheck(line, num), SemicolonCheck(line, num),
      CommentCheck(line, num), TodoCheck(line, num), BlankLinesError(blank, num), ClassDefCheck(line, num), num);
  }

  /** The diagnostics of one line come in check order: S001, S002, S003,
      S004, S005, S006, then the class/def group (S007/S013). */
  lemma CodeCheckOrder(line: string, num: int, blank: nat)
    requires line != []
    ensures SortedByRank(CodeCheck(line, num, blank))
  {
    var r1, r2, r3 := LengthCheck(line, num), IndentationCheck(line, num), SemicolonCheck(line, num);
    var r4, r5, r6 := CommentCheck(line, num), TodoCheck(line, num), BlankLinesError(blank, num);
    var r7 := ClassDefCheck(line, num);
    CodeCheckPieces(line, num, blank);
    ClassDefCheckLines(line, num);
    PiecesInOrder(r1, r2, r3, r4, r5, r6, r7, num);
  }

  /** Each of S001-S006 is reported at most once per line, exactly when its
      condition holds: the line is longer than 79 characters (S001); it
      starts with whitespace and its indentation width is not a multiple of
      4 (S002); S003, S004 and S005 as their predicates state; more than two
      zero-length lines precede it (S006). */
  lemma CodeCheckReports(line: string, num: int, blank: nat)
    requires line != []
    ensures var r := CodeCheck(line, num, blank);
      && |OfCode(r, S001)| == (if |line| > MaxLineLength then 1 else 0)
      && |OfCode(r, S002)| == (if IsWhitespace(line[0]) && IndentWidth(line) % IndentationUnit != 0 then 1 else 0)
      && |OfCode(r, S003)| == (if UnneededSemicolon(line) then 1 else 0)
      && |OfCode(r, S004)| == (if InlineCommentMisplaced(line) then 1 else 0)
      && |OfCode(r, S005)| == (if TodoInComment(line) then 1 else 0)
      && |OfCode(r, S006)| == (if blank > MaxBlankLines then 1 else 0)
  {
    var r1, r2, r3 := LengthCheck(line, num), IndentationCheck(line, num), SemicolonCheck(line, num);
    var r4, r5, r6 := CommentCheck(line, num), TodoCheck(line, num), BlankLinesError(blank, num);
    var r7 := ClassDefCheck(line, num);
    CodeCheckPieces(line, num, blank);
    ClassDefCheckLines(line, num);
    SemicolonCheckSpec(line, num);
    CommentCheckSpec(line, num);
    TodoCheckSpec(line, num);
    PiecesByCode(r1, r2, r3, r4, r5, r6, r7, num);
  }

  /** S006 is reported once exactly when more than two zero-length lines
      come right before the line. */
  lemma CodeCheckBlankLines(line: string, num: int, blank: nat)
    requires line != []
    ensures |OfCode(CodeCheck(line, num, blank), S006)| == if blank > MaxBlankLines then 1 else 0
  {
    var r1, r2, r3 := LengthCheck(line, num), IndentationCheck(line, num), SemicolonCheck(line, num);
    var r4, r5, r6 := CommentCheck(line, num), TodoCheck(line, num), BlankLinesError(blank, num);
    var r7 := ClassDefCheck(line, num);
    CodeCheckPieces(line, num, blank);
    ClassDefCheckLines(line, num);
    CountSplit7(r1, r2, r3, r4, r5, r6, r7, num, S006);
  }

  /** Seven check results, all at line `num`, concatenated. */
  lemma PiecesLines(r1: seq<Diagnostic>, r2: seq<Diagnostic>, r3: seq<Diagnostic>, r4: seq<Diagnostic>,
                    r5: seq<Diagnostic>, r6: seq<Diagnostic>, r7: seq<Diagnostic>, num: int)
    requires Reports(r1, num, S001) && Reports(r2, num, S002) && Reports(r3, num, S003)
    requires Reports(r4, num, S004) && Reports(r5, num, S005) && Reports(r6, num, S006)
    requires forall d :: d in r7 ==> d.line == num && (d.code == S007 || d.code == S013)
    ensures AllAt(r1 + r2 + r3 + r4 + r5 + r6 + r7, num)
  {
    ReportsAllAt(r1, num, S001);
    ReportsAllAt(r2, num, S002);
    ReportsAllAt(r3, num, S003);
    ReportsAllAt(r4, num, S004);
    ReportsAllAt(r5, num, S005);
    ReportsAllAt(r6, num, S006);
    AllAtAppend(r1, r2, num);
    AllAtAppend(r1 + r2, r3, num);
    AllAtAppend(r1 + r2 + r3, r4, num);
    AllAtAppend(r1 + r2 + r3 + r4, r5, num);
    AllAtAppend(r1 + r2 + r3 + r4 + r5, r6, num);
    AllAtAppend(r1 + r2 + r3 + r4 + r5 + r6, r7, num);
  }

  /** Seven check results, each of a single code, concatenated in rank order. */
  lemma PiecesInOrder(r1: seq<Diagnostic>, r2: seq<Diagnostic>, r3: seq<Diagnostic>, r4: seq<Diagnostic>,
                      r5: seq<Diagnostic>, r6: seq<Diagnostic>, r7: seq<Diagnostic>, num: int)
    requires Reports(r1, num, S001) && Reports(r2, num, S002) && Reports(r3, num, S003)
    requires Reports(r4, num, S004) && Reports(r5, num, S005) && Reports(r6, num, S006)
    requires forall d :: d in r7 ==> d.code == S007 || d.code == S013
    ensures SortedByRank(r1 + r2 + r3 + r4 + r5 + r6 + r7)
  {
    assert [] + r1 == r1;
    SortedAppendReport([], r1, num, S001);
    var s2 := r1 + r2;
    SortedAppendReport(r1, r2, num, S002);
    var s3 := s2 + r3;
    SortedAppendReport(s2, r3, num, S003);
    var s4 := s3 + r4;
    SortedAppendReport(s3, r4, num, S004);
    var s5 := s4 + r5;
    SortedAppendReport(s4, r5, num, S005);
    var s6 := s5 + r6;
    SortedAppendReport(s5, r6, num, S006);
    SortedAppend(s6, r7, 7);
  }

  /** Counting S001-S006 in seven check results finds each in its own piece. */
  lemma PiecesByCode(r1: seq<Diagnostic>, r2: seq<Diagnostic>, r3: seq<Diagnostic>, r4: seq<Diagnostic>,
                     r5: seq<Diagnostic>, r6: seq<Diagnostic>, r7: seq<Diagnostic>, num: int)
    requires Reports(r1, num, S001) && Reports(r2, num, S002) && Reports(r3, num, S003)
    requires Reports(r4, num, S004) && Reports(r5, num, S005) && Reports(r6, num, S006)
    requires forall d :: d in r7 ==> d.code == S007 || d.code == S013
    ensures var r := r1 + r2 + r3 + r4 + r5 + r6 + r7;
      |OfCode(r, S001)| == |r1| && |OfCode(r, S002)| == |r2| && |OfCode(r, S003)| == |r3| &&
      |OfCode(r, S004)| == |r4| && |OfCode(r, S005)| == |r5| && |OfCode(r, S006)| == |r6|
  {
    CountSplit7(r1, r2, r3, r4, r5, r6, r7, num, S001);
    CountSplit7(r1, r2, r3, r4, r5, r6, r7, num, S002);
    CountSplit7(r1, r2, r3, r4, r5, r6, r7, num, S003);
    CountSplit7(r1, r2, r3, r4, r5, r6, r7, num, S004);
    CountSplit7(r1, r2, r3, r4, r5, r6, r7, num, S005);
    CountSplit7(r1, r2, r3, r4, r5, r6, r7, num, S006);
  }

  lemma CountSplit7(r1: seq<Diagnostic>, r2: seq<Diagnostic>, r3: seq<Diagnostic>, r4: seq<Diagnostic>,
                    r5: seq<Diagnostic>, r6: seq<Diagnostic>, r7: seq<Diagnostic>, num: int, c: Code)
    requires Reports(r1, num, S001) && Reports(r2, num, S002) && Reports(r3, num, S003)
    requires Reports(r4, num, S004) && Reports(r5, num, S005) && Reports(r6, num, S006)
    requires forall d :: d in r7 ==> d.code != c
    ensures |OfCode(r1 + r2 + r3 + r4 + r5 + r6 + r7, c)|
            == (if c == S001 then |r1| else 0) + (if c == S002 then |r2| else 0)
               + (if c == S003 then |r3| else 0) + (if c == S004 then |r4| else 0)
               + (if c == S005 then |r5| else 0) + (if c == S006 then |r6| else 0)
  {
    OfCodeOfReport(r1, num, S001, c);
    OfCodeAfterReport(r1, r2, num, S002, c);
    OfCodeAfterReport(r1 + r2, r3, num, S003, c);
    OfCodeAfterReport(r1 + r2 + r3, r4, num, S004, c);
    OfCodeAfterReport(r1 + r2 + r3 + r4, r5, num, S005, c);
    OfCodeAfterReport(r1 + r2 + r3 + r4 + r5, r6, num, S006, c);
    OfCodeAppend(r1 + r2 + r3 + r4 + r5 + r6, r7, c);
    OfCodeNone(r7, c);
  }
}
