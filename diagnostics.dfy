/** The diagnostics the analyzer prints: a line number, one of the codes
    S001-S013 and the message that follows the code. The file path that
    prefixes every printed diagnostic is the same for a whole file and is
    left to the caller. */
module Diagnostics {

  datatype Code =
    | S001 | S002 | S003 | S004 | S005 | S006 | S007
    | S008 | S009 | S010 | S011 | S012 | S013

  /** The message that follows the code, with the name or keyword it quotes;
      `Render` gives the text that is printed. */
  datatype Message =
    | TooLong
    | BadIndentation
    | UnnecessarySemicolon
    | CommentTooClose
    | TodoFound
    | TooManyBlankLines
    | SpacesAfterKeyword(keyword: string)
    | SpacesAfterName(keyword: string)
    | ClassName(name: string)
    | FunctionName(name: string)
    | ArgumentName(name: string)
    | VariableName(name: string)
    | MutableDefault

  function Render(m: Message): string {
    match m
    case TooLong => "is contrary to the requirements of PEP8"
    case BadIndentation => "Indentation is not a multiple of four"
    case UnnecessarySemicolon => "Unnecessary semicolon"
    case CommentTooClose => "Less than two spaces before inline comments"
    case TodoFound => "TODO found"
    case TooManyBlankLines => "More than two blank lines used before this line"
    case SpacesAfterKeyword(keyword) => "Too many spaces after '" + keyword + "'"
    case SpacesAfterName(keyword) => "Too many spaces after " + keyword + " name"
    case ClassName(name) => "Class name '" + name + "' should use CamelCase"
    case FunctionName(name) => "Function name '" + name + "' should use snake_case"
    case ArgumentName(name) => "Argument name " + name + " should be written in snake_case"
    case VariableName(name) => "Variable " + name + " should be snake_case"
    case MutableDefault => "Default argument value is mutable"
  }

  datatype Diagnostic = Diagnostic(line: int, code: Code, message: Message)

  /** Codes reported by the line scanner (`CodeLines`). */
  predicate IsLineCode(c: Code) {
    !IsTreeCode(c)
  }

  /** Codes reported by the tree visitor (`PEP8AstVisitor`). */
  predicate IsTreeCode(c: Code) {
    c.S008? || c.S009? || c.S010? || c.S011? || c.S012?
  }

  /** `r` is what one check printed for line `num`: nothing, or one
      diagnostic with code `c`. */
  predicate Reports(r: seq<Diagnostic>, num: int, c: Code) {
    r == [] || (|r| == 1 && r[0].line == num && r[0].code == c)
  }

  /** Every diagnostic of `ds` is a line diagnostic of line `num`. */
  predicate AllAt(ds: seq<Diagnostic>, num: int) {
    forall d :: d in ds ==> d.line == num && IsLineCode(d.code)
  }

  lemma ReportsAllAt(r: seq<Diagnostic>, num: int, c: Code)
    requires Reports(r, num, c) && IsLineCode(c)
    ensures AllAt(r, num)
  {
    if r != [] {
      assert r == [r[0]];
    }
  }

  lemma AllAtAppend(a: seq<Diagnostic>, b: seq<Diagnostic>, num: int)
    requires AllAt(a, num) && AllAt(b, num)
    ensures AllAt(a + b, num)
  {
  }

  /** The position of a code in the order in which one line's checks, and one
      function definition's checks, run: S001-S006 first, then the class/def
      spacing codes S007 and S013 together, then the tree codes in
      numerical order. */
  function Rank(c: Code): (k: nat)
    ensures IsLineCode(c) <==> k <= 7
  {
    match c
    case S001 => 1
    case S002 => 2
    case S003 => 3
    case S004 => 4
    case S005 => 5
    case S006 => 6
    case S007 => 7
    case S013 => 7
    case S008 => 8
    case S009 => 9
    case S010 => 10
    case S011 => 11
    case S012 => 12
  }

  /** The codes of `ds` never go back in `Rank` order. */
  predicate SortedByRank(ds: seq<Diagnostic>) {
    forall i, j :: 0 <= i < j < |ds| ==> Rank(ds[i].code) <= Rank(ds[j].code)
  }

  /** Appending diagnostics of rank `k` to a sorted sequence of ranks at
      most `k` keeps it sorted. */
  lemma SortedAppend(a: seq<Diagnostic>, b: seq<Diagnostic>, k: nat)
    requires SortedByRank(a) && forall x :: x in a ==> Rank(x.code) <= k
    requires forall y :: y in b ==> Rank(y.code) == k
    ensures SortedByRank(a + b) && forall z :: z in a + b ==> Rank(z.code) <= k
  {
    forall i, j | 0 <= i < j < |a + b|
      ensures Rank((a + b)[i].code) <= Rank((a + b)[j].code)
    {
      if j < |a| {
      } else if i >= |a| {
        assert (a + b)[i] == b[i - |a|] && (a + b)[j] == b[j - |a|];
      } else {
        assert (a + b)[i] in a && (a + b)[j] in b;
      }
    }
  }

  lemma SortedAppendReport(a: seq<Diagnostic>, b: seq<Diagnostic>, num: int, c: Code)
    requires SortedByRank(a) && forall x :: x in a ==> Rank(x.code) <= Rank(c)
    requires Reports(b, num, c)
    ensures SortedByRank(a + b) && forall z :: z in a + b ==> Rank(z.code) <= Rank(c)
  {
    SortedAppend(a, b, Rank(c));
  }

  /** The diagnostics of `ds` that carry code `c`, in order. */
  function OfCode(ds: seq<Diagnostic>, c: Code): (r: seq<Diagnostic>)
    ensures forall d :: d in r <==> d in ds && d.code == c
  {
    if ds == [] then []
    else (if ds[0].code == c then [ds[0]] else []) + OfCode(ds[1..], c)
  }

  /** The diagnostics of `ds` reported on line `n`, in order. */
  function AtLine(ds: seq<Diagnostic>, n: int): (r: seq<Diagnostic>)
    ensures forall d :: d in r <==> d in ds && d.line == n
  {
    if ds == [] then []
    else (if ds[0].line == n then [ds[0]] else []) + AtLine(ds[1..], n)
  }

  lemma {:induction false} OfCodeAppend(a: seq<Diagnostic>, b: seq<Diagnostic>, c: Code)
    ensures OfCode(a + b, c) == OfCode(a, c) + OfCode(b, c)
  {
    if a == [] {
      assert a + b == b;
    } else {
      assert (a + b)[1..] == a[1..] + b;
      OfCodeAppend(a[1..], b, c);
    }
  }

  lemma {:induction false} AtLineAppend(a: seq<Diagnostic>, b: seq<Diagnostic>, n: int)
    ensures AtLine(a + b, n) == AtLine(a, n) + AtLine(b, n)
  {
    if a == [] {
      assert a + b == b;
    } else {
      assert (a + b)[1..] == a[1..] + b;
      AtLineAppend(a[1..], b, n);
    }
  }

  /** Selecting a line that only the first part reports. */
  lemma AtLineOfFirst(a: seq<Diagnostic>, b: seq<Diagnostic>, n: int)
    requires forall d :: d in b ==> d.line != n
    ensures AtLine(a + b, n) == AtLine(a, n)
  {
    AtLineAppend(a, b, n);
    AtLineNone(b, n);
    assert AtLine(a, n) + [] == AtLine(a, n);
  }

  /** Selecting the line that the second part reports, and only it. */
  lemma AtLineOfSecond(a: seq<Diagnostic>, b: seq<Diagnostic>, n: int)
    requires forall d :: d in a ==> d.line != n
    requires forall d :: d in b ==> d.line == n
    ensures AtLine(a + b, n) == b
  {
    AtLineAppend(a, b, n);
    AtLineNone(a, n);
    AtLineAll(b, n);
    assert [] + b == b;
  }

  lemma {:induction false} OfCodeNone(ds: seq<Diagnostic>, c: Code)
    requires forall d :: d in ds ==> d.code != c
    ensures OfCode(ds, c) == []
  {
    if ds != [] {
      OfCodeNone(ds[1..], c);
    }
  }

  /** Selecting by code from what one check printed. */
  lemma OfCodeOfReport(r: seq<Diagnostic>, num: int, c': Code, c: Code)
    requires Reports(r, num, c')
    ensures |OfCode(r, c)| == if c == c' then |r| else 0
  {
    if r != [] {
      assert r == [r[0]];
    }
  }

  /** Counting code `c` after appending what one check printed. */
  lemma OfCodeAfterReport(a: seq<Diagnostic>, b: seq<Diagnostic>, num: int, c': Code, c: Code)
    requires Reports(b, num, c')
    ensures |OfCode(a + b, c)| == |OfCode(a, c)| + if c == c' then |b| else 0
  {
    OfCodeAppend(a, b, c);
    OfCodeOfReport(b, num, c', c);
  }

  lemma {:induction false} AtLineAll(ds: seq<Diagnostic>, n: int)
    requires forall d :: d in ds ==> d.line == n
    ensures AtLine(ds, n) == ds
  {
    if ds != [] {
      AtLineAll(ds[1..], n);
    }
  }

  lemma {:induction false} AtLineNone(ds: seq<Diagnostic>, n: int)
    requires forall d :: d in ds ==> d.line != n
    ensures AtLine(ds, n) == []
  {
    if ds != [] {
      AtLineNone(ds[1..], n);
    }
  }

  /** Joining sequences is associative. */
  lemma AppendAssoc<T>(a: seq<T>, b: seq<T>, c: seq<T>)
    ensures a + (b + c) == a + b + c
  {
  }

  lemma AppendNil<T>(a: seq<T>)
    ensures a + [] == a
  {
  }

  /** The groups of diagnostics of consecutive lines, joined in order. */
  function Flatten(groups: seq<seq<Diagnostic>>): seq<Diagnostic>
    decreases |groups|
  {
    if groups == [] then [] else Flatten(groups[..|groups| - 1]) + groups[|groups| - 1]
  }

  /** Group `j` holds only diagnostics of line `base + j`. */
  predicate NumberedFrom(groups: seq<seq<Diagnostic>>, base: int) {
    forall j :: 0 <= j < |groups| ==> forall d :: d in groups[j] ==> d.line == base + j
  }

  lemma {:induction false} FlattenMember(groups: seq<seq<Diagnostic>>, d: Diagnostic)
    ensures d in Flatten(groups) <==> exists j :: 0 <= j < |groups| && d in groups[j]
    decreases |groups|
  {
    if groups != [] {
      var last := |groups| - 1;
      var init := groups[..last];
      FlattenMember(init, d);
      assert Flatten(groups) == Flatten(init) + groups[last];
      assert forall j :: 0 <= j < last ==> init[j] == groups[j];
    }
  }

  /** Joined groups numbered from `base` report only lines `base` up to
      `base + |groups| - 1`. */
  lemma FlattenLines(groups: seq<seq<Diagnostic>>, base: int)
    requires NumberedFrom(groups, base)
    ensures forall d :: d in Flatten(groups) ==> base <= d.line < base + |groups|
  {
    forall d | d in Flatten(groups)
      ensures base <= d.line < base + |groups|
    {
      FlattenMember(groups, d);
    }
  }

  /** Selecting line `base + k` from joined groups gives back group `k`. */
  lemma {:induction false} FlattenAt(groups: seq<seq<Diagnostic>>, base: int, k: nat)
    requires NumberedFrom(groups, base) && k < |groups|
    ensures AtLine(Flatten(groups), base + k) == groups[k]
    decreases |groups|
  {
    var last := |groups| - 1;
    var init := groups[..last];
    var earlier, tail := Flatten(init), groups[last];
    assert Flatten(groups) == earlier + tail;
    assert NumberedFrom(init, base) by {
      assert forall j :: 0 <= j < last ==> init[j] == groups[j];
    }
    if k < last {
      FlattenAt(init, base, k);
      AtLineOfFirst(earlier, tail, base + k);
    } else {
      FlattenLines(init, base);
      AtLineOfSecond(earlier, tail, base + k);
    }
  }

  /** Joined groups numbered from `base` never go back in line number. */
  lemma {:induction false} FlattenAscending(groups: seq<seq<Diagnostic>>, base: int)
    requires NumberedFrom(groups, base)
    ensures forall i, j :: 0 <= i < j < |Flatten(groups)| ==> Flatten(groups)[i].line <= Flatten(groups)[j].line
    decreases |groups|
  {
    if groups != [] {
      var last := |groups| - 1;
      var init := groups[..last];
      var a: seq<Diagnostic>, b: seq<Diagnostic> := Flatten(init), groups[last];
      assert Flatten(groups) == a + b;
      assert NumberedFrom(init, base) by {
        assert forall j :: 0 <= j < last ==> init[j] == groups[j];
      }
      FlattenAscending(init, base);
      FlattenLines(init, base);
      assert forall d :: d in b ==> d.line == base + last;
      forall i, j | 0 <= i < j < |a + b|
        ensures (a + b)[i].line <= (a + b)[j].line
      {
        if j >= |a| {
          assert (a + b)[j] == b[j - |a|] && b[j - |a|] in b;
          if i < |a| {
            assert (a + b)[i] == a[i] && a[i] in a;
          } else {
            assert (a + b)[i] == b[i - |a|] && b[i - |a|] in b;
          }
        } else {
          assert (a + b)[i] == a[i] && (a + b)[j] == a[j];
        }
      }
    }
  }
}
