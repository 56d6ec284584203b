/** `PEP8AstVisitor`: a pre-order walk over the parsed module that reports
    naming problems (S008-S011) and list displays used as default argument
    values (S012). The parser itself is not part of the model: the tree is
    given, with every node's children in the order `generic_visit` reaches
    them. */
module AstVisitor {
  import opened Text
  import opened Diagnostics

  /** The nodes the visitor tells apart; every other node kind is `Other`.
      - `ClassDef`: `children` are the bases, keywords, body and decorators.
      - `FunctionDef`: `params` are the names of the positional parameters
        (`args.args`, without positional-only, `*args`, keyword-only or
        `**kwargs` parameters); `defaults` are the default values of the
        positional parameters (`args.defaults`); `signature` holds the nodes
        `generic_visit` reaches inside `args` before the defaults (annotations
        and keyword-only defaults); `body` holds the statements, decorators
        and return annotation, which it reaches after them.
      - `Name`: an identifier use; `isStore` when it is an assignment target.
      - `List`: a list display `[...]`, with its elements. */
  datatype Node =
    | ClassDef(line: int, name: string, children: seq<Node>)
    | FunctionDef(line: int, name: string, params: seq<string>,
                  signature: seq<Node>, defaults: seq<Node>, body: seq<Node>)
    | Name(line: int, id: string, isStore: bool)
    | List(line: int, elements: seq<Node>)
    | Other(children: seq<Node>)

  /** The number of elements of `s` that satisfy `p`. */
  function Count<T>(s: seq<T>, p: T -> bool): nat {
    if s == [] then 0 else (if p(s[0]) then 1 else 0) + Count(s[1..], p)
  }

  predicate IsListDisplay(e: Node) {
    e.List?
  }

  /** `visit_ClassDef` (S008): reported unless the name starts with a
      non-word character or an upper-case letter (`re.match(r"[\WA-Z]", name)`). */
  function ClassNameCheck(name: string, line: int): (r: seq<Diagnostic>)
    ensures r == [] || r == [Diagnostic(line, S008, ClassName(name))]
    ensures |name| > 0 && IsWordChar(name[0]) ==> (r != [] <==> !IsUpper(name[0]))
    ensures name == [] ==> r != []
    ensures r != [] <==> name == [] || (IsWordChar(name[0]) && !IsUpper(name[0]))
  {
    if !(|name| > 0 && (!IsWordChar(name[0]) || IsUpper(name[0]))) then
      [Diagnostic(line, S008, ClassName(name))]
    else []
  }

  /** The S009 part of `visit_FunctionDef`: reported unless the name starts
      with a character other than an upper-case letter (`re.match(r"[^A-Z].*", name)`). */
  function FunctionNameCheck(name: string, line: int): (r: seq<Diagnostic>)
    ensures r == [] || r == [Diagnostic(line, S009, FunctionName(name))]
    ensures r != [] <==> name == [] || IsUpper(name[0])
  {
    if !(|name| > 0 && !IsUpper(name[0])) then
      [Diagnostic(line, S009, FunctionName(name))]
    else []
  }

  function ArgumentDiagnostic(param: string, line: int): Diagnostic {
    Diagnostic(line, S010, ArgumentName(param))
  }

  /** The S010 loop of `visit_FunctionDef`: one diagnostic per parameter that
      starts with an upper-case letter, reported at the function's line. */
  function ArgumentChecks(params: seq<string>, line: int): (r: seq<Diagnostic>)
    ensures |r| == Count(params, StartsUpper)
    ensures forall d :: d in r ==> d.line == line && d.code == S010
  {
    if params == [] then []
    else
      (if StartsUpper(params[0]) then [ArgumentDiagnostic(params[0], line)] else [])
      + ArgumentChecks(params[1..], line)
  }

  /** The positions from `from` on of the parameters that start with an
      upper-case letter, in increasing order. */
  ghost function UpperIndicesFrom(params: seq<string>, from: nat): (ix: seq<nat>)
    requires from <= |params|
    ensures forall k :: 0 <= k < |ix| ==> from <= ix[k] < |params| && StartsUpper(params[ix[k]])
    ensures forall k, l :: 0 <= k < l < |ix| ==> ix[k] < ix[l]
    decreases |params| - from
  {
    if from == |params| then []
    else (if StartsUpper(params[from]) then [from] else []) + UpperIndicesFrom(params, from + 1)
  }

  /** Every position from `from` on whose parameter starts with an upper-case
      letter is among those positions. */
  lemma {:induction false} UpperIndicesComplete(params: seq<string>, from: nat, i: nat)
    requires from <= i < |params| && StartsUpper(params[i])
    ensures i in UpperIndicesFrom(params, from)
    decreases |params| - from
  {
    if from < i {
      UpperIndicesComplete(params, from + 1, i);
    }
  }

  /** The S010s for the parameters from `from` on name those parameters that
      start with an upper-case letter, one each, in parameter order. */
  lemma {:induction false} ArgumentChecksFrom(params: seq<string>, from: nat, line: int)
    requires from <= |params|
    ensures var r, ix := ArgumentChecks(params[from..], line), UpperIndicesFrom(params, from);
      |r| == |ix| && forall k :: 0 <= k < |r| ==> r[k] == ArgumentDiagnostic(params[ix[k]], line)
    decreases |params| - from
  {
    if from < |params| {
      ArgumentChecksFrom(params, from + 1, line);
      var rest, ixRest := ArgumentChecks(params[from + 1..], line), UpperIndicesFrom(params, from + 1);
      assert params[from..][0] == params[from];
      assert params[from..][1..] == params[from + 1..];
      if StartsUpper(params[from]) {
        var r, ix := ArgumentChecks(params[from..], line), UpperIndicesFrom(params, from);
        assert r == [ArgumentDiagnostic(params[from], line)] + rest;
        assert ix == [from] + ixRest;
        forall k | 1 <= k < |r|
          ensures r[k] == ArgumentDiagnostic(params[ix[k]], line)
        {
          assert r[k] == rest[k - 1] && ix[k] == ixRest[k - 1];
        }
      } else {
        assert ArgumentChecks(params[from..], line) == rest;
      }
    }
  }

  /** The S010s of a definition come in parameter order: the `k`-th names the
      `k`-th parameter that starts with an upper-case letter. */
  lemma ArgumentChecksInOrder(params: seq<string>, line: int)
    ensures var r, ix := ArgumentChecks(params, line), UpperIndicesFrom(params, 0);
      |r| == |ix| && forall k :: 0 <= k < |r| ==> r[k] == ArgumentDiagnostic(params[ix[k]], line)
  {
    ArgumentChecksFrom(params, 0, line);
    assert params[0..] == params;
  }

  /** The S010s of a definition name exactly its parameters that start with
      an upper-case letter. */
  lemma ArgumentChecksNames(params: seq<string>, line: int)
    ensures var r := ArgumentChecks(params, line);
      && (forall d :: d in r ==> exists p :: p in params && StartsUpper(p) && d == ArgumentDiagnostic(p, line))
      && (forall p :: p in params && StartsUpper(p) ==> ArgumentDiagnostic(p, line) in r)
  {
    var r, ix := ArgumentChecks(params, line), UpperIndicesFrom(params, 0);
    ArgumentChecksInOrder(params, line);
    forall d | d in r
      ensures exists p :: p in params && StartsUpper(p) && d == ArgumentDiagnostic(p, line)
    {
      var k :| 0 <= k < |r| && r[k] == d;
      assert params[ix[k]] in params;
    }
    forall p | p in params && StartsUpper(p)
      ensures ArgumentDiagnostic(p, line) in r
    {
      var i :| 0 <= i < |params| && params[i] == p;
      UpperIndicesComplete(params, 0, i);
      var k :| 0 <= k < |ix| && ix[k] == i;
      assert r[k] == ArgumentDiagnostic(p, line);
    }
  }

  /** The S012 loop of `visit_FunctionDef`: one diagnostic per default value
      that is a list display, reported at the function's line. */
  function DefaultChecks(defaults: seq<Node>, line: int): (r: seq<Diagnostic>)
    ensures |r| == Count(defaults, IsListDisplay)
    ensures forall d :: d in r ==> d == Diagnostic(line, S012, MutableDefault)
  {
    if defaults == [] then []
    else
      (if defaults[0].List? then [Diagnostic(line, S012, MutableDefault)] else [])
      + DefaultChecks(defaults[1..], line)
  }

  /** `visit_FunctionDef`: S009, then the S010s in parameter order, then the
      S012s in default order, all at the function's line. */
  function FunctionCheck(name: string, params: seq<string>, defaults: seq<Node>, line: int): (r: seq<Diagnostic>)
    ensures forall d :: d in r ==> d.line == line
  {
    FunctionNameCheck(name, line) + ArgumentChecks(params, line) + DefaultChecks(defaults, line)
  }

  /** `visit_Name` (S011): an assignment target whose name starts with an
      upper-case letter, reported at the name's own line. */
  function VariableCheck(id: string, isStore: bool, line: int): (r: seq<Diagnostic>)
    ensures r == [] || r == [Diagnostic(line, S011, VariableName(id))]
    ensures r != [] <==> isStore && StartsUpper(id)
  {
    if isStore && StartsUpper(id) then
      [Diagnostic(line, S011, VariableName(id))]
    else []
  }

  /** What the visitor reports for `n` itself, before visiting its children. */
  function NodeCheck(n: Node): seq<Diagnostic> {
    match n
    case ClassDef(line, name, _) => ClassNameCheck(name, line)
    case FunctionDef(line, name, params, _, defaults, _) => FunctionCheck(name, params, defaults, line)
    case Name(line, id, isStore) => VariableCheck(id, isStore, line)
    case List(_, _) => []
    case Other(_) => []
  }

  /** `visit`: the node's own diagnostics, then those of its children in order
      (`generic_visit`). */
  function Visit(n: Node): (r: seq<Diagnostic>)
    ensures forall d :: d in r ==> IsTreeCode(d.code)
    decreases n
  {
    match n
    case ClassDef(_, _, children) => NodeCheck(n) + VisitAll(children)
    case FunctionDef(_, _, _, signature, defaults, body) =>
      NodeCheck(n) + VisitAll(signature) + VisitAll(defaults) + VisitAll(body)
    case Name(_, _, _) => NodeCheck(n)
    case List(_, elements) => VisitAll(elements)
    case Other(children) => VisitAll(children)
  }

  function VisitAll(ns: seq<Node>): (r: seq<Diagnostic>)
    ensures forall d :: d in r ==> IsTreeCode(d.code)
    decreases ns
  {
    if ns == [] then [] else Visit(ns[0]) + VisitAll(ns[1..])
  }

  /** The nodes of the tree rooted at `n`, in pre-order. */
  function Preorder(n: Node): seq<Node>
    decreases n
  {
    match n
    case ClassDef(_, _, children) => [n] + PreorderAll(children)
    case FunctionDef(_, _, _, signature, defaults, body) =>
      [n] + PreorderAll(signature) + PreorderAll(defaults) + PreorderAll(body)
    case Name(_, _, _) => [n]
    case List(_, elements) => [n] + PreorderAll(elements)
    case Other(children) => [n] + PreorderAll(children)
  }

  function PreorderAll(ns: seq<Node>): seq<Node>
    decreases ns
  {
    if ns == [] then [] else Preorder(ns[0]) + PreorderAll(ns[1..])
  }

  /** The own diagnostics of each node of `ns`, one node after another. */
  function ChecksOf(ns: seq<Node>): seq<Diagnostic> {
    if ns == [] then [] else NodeCheck(ns[0]) + ChecksOf(ns[1..])
  }

  lemma {:induction false} ChecksOfAppend(a: seq<Node>, b: seq<Node>)
    ensures ChecksOf(a + b) == ChecksOf(a) + ChecksOf(b)
  {
    if a == [] {
      assert a + b == b;
    } else {
      assert (a + b)[1..] == a[1..] + b;
      ChecksOfAppend(a[1..], b);
    }
  }

  lemma {:induction false} ChecksOfMember(ns: seq<Node>, d: Diagnostic)
    ensures d in ChecksOf(ns) <==> exists m :: m in ns && d in NodeCheck(m)
  {
    if ns != [] {
      ChecksOfMember(ns[1..], d);
      assert forall m :: m in ns <==> m == ns[0] || m in ns[1..];
    }
  }

  /** The visitor is a pre-order walk: its output is every node's own
      diagnostics, taken node by node in pre-order. */
  lemma {:induction false} VisitIsPreorder(n: Node)
    ensures Visit(n) == ChecksOf(Preorder(n))
    decreases n
  {
    match n
    case ClassDef(_, _, children) =>
      VisitAllIsPreorder(children);
      ChecksOfAppend([n], PreorderAll(children));
    case FunctionDef(_, _, _, signature, defaults, body) =>
      VisitAllIsPreorder(signature);
      VisitAllIsPreorder(defaults);
      VisitAllIsPreorder(body);
      ChecksOfAppend([n], PreorderAll(signature));
      ChecksOfAppend([n] + PreorderAll(signature), PreorderAll(defaults));
      ChecksOfAppend([n] + PreorderAll(signature) + PreorderAll(defaults), PreorderAll(body));
    case Name(_, _, _) =>
      assert ChecksOf([n]) == NodeCheck(n) + ChecksOf([]);
    case List(_, elements) =>
      VisitAllIsPreorder(elements);
      ChecksOfAppend([n], PreorderAll(elements));
    case Other(children) =>
      VisitAllIsPreorder(children);
      ChecksOfAppend([n], PreorderAll(children));
  }

  lemma {:induction false} VisitAllIsPreorder(ns: seq<Node>)
    ensures VisitAll(ns) == ChecksOf(PreorderAll(ns))
    decreases ns
  {
    if ns != [] {
      VisitIsPreorder(ns[0]);
      VisitAllIsPreorder(ns[1..]);
      ChecksOfAppend(Preorder(ns[0]), PreorderAll(ns[1..]));
    }
  }

  /** A diagnostic is reported for the tree exactly when some node of the
      tree reports it itself: every class, function and name is checked, and
      nothing else is reported. */
  lemma VisitReports(n: Node, d: Diagnostic)
    ensures d in Visit(n) <==> exists m :: m in Preorder(n) && d in NodeCheck(m)
  {
    VisitIsPreorder(n);
    ChecksOfMember(Preorder(n), d);
  }

  lemma ThreeRanks(a: seq<Diagnostic>, b: seq<Diagnostic>, c: seq<Diagnostic>, line: int)
    requires Reports(a, line, S009)
    requires forall y :: y in b ==> y.code == S010
    requires forall z :: z in c ==> z.code == S012
    ensures SortedByRank(a + b + c)
  {
    assert [] + a == a;
    SortedAppendReport([], a, line, S009);
    SortedAppend(a, b, 10);
    SortedAppend(a + b, c, 12);
  }

  /** Within one function definition the diagnostics come as S009, then the
      S010s, then the S012s. */
  lemma FunctionCheckOrder(name: string, params: seq<string>, defaults: seq<Node>, line: int)
    ensures SortedByRank(FunctionCheck(name, params, defaults, line))
  {
    ThreeRanks(FunctionNameCheck(name, line), ArgumentChecks(params, line), DefaultChecks(defaults, line), line);
  }
}
