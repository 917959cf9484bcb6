/** The write-contract scanner of devtools/check_atomic_writes.py: the class that updates `staged`
    and `findings` while it visits a tree, and the functions that say what each visit does. */
module WriteScanner {
  import opened PurePaths
  import opened PyAst

  datatype Finding = Finding(line: nat, what: string)

  const STAGING_BINDERS: set<string> := {
    "atomic_output_file", "temp_output_file", "temp_output_dir", "TemporaryDirectory",
    "NamedTemporaryFile", "mkdtemp", "mkstemp"
  }
  const TRUNCATING_METHODS: set<string> := {"write_text", "write_bytes"}

  // ----- expressions

  predicate IsTruncatingMode(mode: seq<Expr>) {
    mode != [] && mode[0].Str? && 'w' in mode[0].value
  }

  predicate IsRelativeLiteral(e: Expr) {
    e.Str? && !ParsePath(e.value).abs && DOTDOT !in ParsePath(e.value).parts
  }

  /** The last name of a callee; the empty text when it has none. */
  function CalleeName(func: Expr): string {
    match func
    case Name(id) => id
    case Attribute(_, attr) => attr
    case _ => ""
  }

  predicate IsBinderCall(e: Expr) {
    e.Call? && CalleeName(e.func) in STAGING_BINDERS
  }

  /** The value of the first keyword with a name, as a sequence of at most one. */
  function KeywordArg(keywords: seq<Keyword>, name: string): seq<Expr> {
    if keywords == [] then []
    else if keywords[0].arg == name then [keywords[0].value]
    else KeywordArg(keywords[1..], name)
  }

  function ArgOr(args: seq<Expr>, k: nat, keywords: seq<Keyword>, name: string): seq<Expr> {
    if |args| > k then [args[k]] else KeywordArg(keywords, name)
  }

  predicate QualifiedOpen(func: Expr) {
    func.Attribute? && func.obj.Name? && func.obj.id in {"io", "builtins"}
  }

  /** `_is_staging_expr`: the value is, or derives from, a staged path. */
  predicate IsStagingExpr(e: Expr, staged: set<string>) {
    match e
    case Name(id) => id in staged
    case Attribute(obj, attr) => attr == "name" && IsStagingExpr(obj, staged)
    case Div(left, right) => IsStagingExpr(left, staged) && IsRelativeLiteral(right)
    case Call(func, args, _, _) =>
      || CalleeName(func) in STAGING_BINDERS
      || (CalleeName(func) == "Path" && args != [] && IsStagingExpr(args[0], staged)
          && forall k | 1 <= k < |args| :: IsRelativeLiteral(args[k]))
    case _ => false
  }

  /** `_check_call`: at most one finding. */
  function CallFindings(call: Expr, staged: set<string>): seq<Finding>
    requires call.Call?
  {
    var func := call.func;
    if func.Attribute? && func.attr in TRUNCATING_METHODS then
      if IsStagingExpr(func.obj, staged) then [] else [Finding(call.line, func.attr)]
    else if func.Attribute? && func.attr == "open" && !QualifiedOpen(func) then
      if IsTruncatingMode(ArgOr(call.args, 0, call.keywords, "mode")) && !IsStagingExpr(func.obj, staged)
      then [Finding(call.line, ".open")] else []
    else if CalleeName(func) in {"open", "fdopen"} then
      var target := ArgOr(call.args, 0, call.keywords, "file");
      if !IsTruncatingMode(ArgOr(call.args, 1, call.keywords, "mode")) then []
      else if target != [] && IsStagingExpr(target[0], staged) then []
      else [Finding(call.line, CalleeName(func))]
    else []
  }

  /** What visiting an expression reports; it never changes the staged names. */
  function ExprFindings(e: Expr, staged: set<string>): seq<Finding> {
    match e
    case Attribute(obj, _) => ExprFindings(obj, staged)
    case Div(left, right) => ExprFindings(left, staged) + ExprFindings(right, staged)
    case Call(func, args, keywords, _) =>
      CallFindings(e, staged) + ExprFindings(func, staged) + ExprsFindings(args, staged)
      + KeywordFindings(keywords, staged)
    case Compound(parts) => ExprsFindings(parts, staged)
    case _ => []
  }

  function ExprsFindings(es: seq<Expr>, staged: set<string>): seq<Finding> {
    if es == [] then [] else ExprFindings(es[0], staged) + ExprsFindings(es[1..], staged)
  }

  function KeywordFindings(ks: seq<Keyword>, staged: set<string>): seq<Finding> {
    if ks == [] then [] else ExprFindings(ks[0].value, staged) + KeywordFindings(ks[1..], staged)
  }

  // ----- statements

  function Rebound(staged: set<string>, names: set<string>, isStaged: bool): set<string> {
    if isStaged then staged - names + names else staged - names
  }

  function BindTargets(staged: set<string>, targets: seq<Target>, isStaged: bool): set<string>
    decreases targets
  {
    if targets == [] then staged
    else BindTargets(Rebound(staged, BoundNames(targets[0]), isStaged), targets[1..], isStaged)
  }

  /** The staged names inside the body of a `with`. */
  function AfterItems(items: seq<WithItem>, staged: set<string>): set<string> {
    if items == [] then staged
    else AfterItems(items[1..],
                    Rebound(staged, BoundNames(items[0].target), IsBinderCall(items[0].context)))
  }

  function ItemFindings(items: seq<WithItem>, staged: set<string>): seq<Finding> {
    if items == [] then []
    else ExprFindings(items[0].context, staged)
         + ItemFindings(items[1..],
                        Rebound(staged, BoundNames(items[0].target), IsBinderCall(items[0].context)))
  }

  /** The staged names after a statement. */
  function Exit(stmt: Stmt, staged: set<string>): set<string> {
    match stmt
    case Assign(targets, value) => BindTargets(staged, targets, IsStagingExpr(value, staged))
    case With(items, body) => ExitB(body, AfterItems(items, staged)) * (staged - ItemNames(items))
    case If(_, body, orelse) => ExitB(orelse, staged) * ExitB(body, staged)
    case For(target, _, body, orelse) =>
      var before := staged - BoundNames(target);
      ExitB(orelse, ExitB(body, before)) * before
    case While(_, body, orelse) => ExitB(orelse, ExitB(body, staged))
    case Try(body, handlers, orelse, final) =>
      ExitB(final, ExitB(orelse, ExitH(handlers, ExitB(body, staged))))
    case _ => staged
  }

  function ExitB(block: seq<Stmt>, staged: set<string>): set<string> {
    if block == [] then staged else ExitB(block[1..], Exit(block[0], staged))
  }

  function ExitH(handlers: seq<Handler>, staged: set<string>): set<string> {
    if handlers == [] then staged else ExitH(handlers[1..], ExitB(handlers[0].body, staged))
  }

  /** What visiting a statement reports. */
  function Findings(stmt: Stmt, staged: set<string>): seq<Finding> {
    match stmt
    case ExprStmt(e) => ExprFindings(e, staged)
    case Assign(_, value) => ExprFindings(value, staged)
    case With(items, body) => ItemFindings(items, staged) + FindingsB(body, AfterItems(items, staged))
    case If(test, body, orelse) =>
      ExprFindings(test, staged) + FindingsB(body, staged) + FindingsB(orelse, staged)
    case For(target, iter, body, orelse) =>
      var before := staged - BoundNames(target);
      ExprFindings(iter, staged) + FindingsB(body, before) + FindingsB(orelse, ExitB(body, before))
    case While(test, body, orelse) =>
      ExprFindings(test, staged) + FindingsB(body, staged) + FindingsB(orelse, ExitB(body, staged))
    case Try(body, handlers, orelse, final) =>
      var s1 := ExitB(body, staged);
      var s2 := ExitH(handlers, s1);
      FindingsB(body, staged) + FindingsH(handlers, s1) + FindingsB(orelse, s2)
      + FindingsB(final, ExitB(orelse, s2))
    case Def(_, defaults, body, decorators) => ScopeFindings(defaults, body, decorators)
    case Class(_, bases, body, decorators) => ScopeFindings(bases, body, decorators)
    case Rebind(_, exprs) => ExprsFindings(exprs, staged)
    case Return(e) => ExprFindings(e, staged)
    case Raise(e) => ExprFindings(e, staged)
    case _ => []
  }

  /** A function or class starts from no staged name; its decorators come after its body. */
  function ScopeFindings(before: seq<Expr>, body: seq<Stmt>, after: seq<Expr>): seq<Finding>
    decreases body, 1
  {
    ExprsFindings(before, {}) + FindingsB(body, {}) + ExprsFindings(after, ExitB(body, {}))
  }

  function FindingsB(block: seq<Stmt>, staged: set<string>): seq<Finding>
    decreases block, 0
  {
    if block == [] then []
    else Findings(block[0], staged) + FindingsB(block[1..], Exit(block[0], staged))
  }

  function FindingsH(handlers: seq<Handler>, staged: set<string>): seq<Finding> {
    if handlers == [] then []
    else FindingsB(handlers[0].body, staged)
         + FindingsH(handlers[1..], ExitB(handlers[0].body, staged))
  }

  lemma {:induction false} Associative<T>(a: seq<T>, b: seq<T>, c: seq<T>, d: seq<T>)
    ensures a + b + c + d == a + (b + c + d)
  {
  }

  lemma {:induction false} FourParts<T>(a: seq<T>, b: seq<T>, c: seq<T>, d: seq<T>, e: seq<T>)
    ensures a + b + c + d + e == a + (b + c + d + e)
  {
    Associative(a, b, c, d);
    assert a + (b + c + d) + e == a + ((b + c + d) + e);
  }

  /** `_Scanner`. */
  class Scanner {
    var staged: set<string>
    var findings: seq<Finding>

    constructor ()
      ensures staged == {} && findings == []
    {
      staged, findings := {}, [];
    }

    method VisitExpr(e: Expr)
      modifies this`findings
      ensures findings == old(findings) + ExprFindings(e, staged)
      decreases e
    {
      match e {
        case Name(_) =>
        case Str(_) =>
        case Const =>
        case Attribute(obj, _) => VisitExpr(obj);
        case Div(left, right) =>
          VisitExpr(left);
          VisitExpr(right);
        case Call(func, args, keywords, _) =>
          findings := findings + CallFindings(e, staged);
          VisitExpr(func);
          VisitExprs(args);
          VisitKeywords(keywords);
        case Compound(parts) => VisitExprs(parts);
      }
    }

    method VisitKeywords(ks: seq<Keyword>)
      modifies this`findings
      ensures findings == old(findings) + KeywordFindings(ks, staged)
      decreases ks
    {
      for k := 0 to |ks|
        invariant findings + KeywordFindings(ks[k..], staged)
                  == old(findings) + KeywordFindings(ks, staged)
      {
        assert ks[k..][1..] == ks[k + 1..];
        VisitExpr(ks[k].value);
      }
    }

    method VisitExprs(es: seq<Expr>)
      modifies this`findings
      ensures findings == old(findings) + ExprsFindings(es, staged)
      decreases es
    {
      for k := 0 to |es|
        invariant findings + ExprsFindings(es[k..], staged)
                  == old(findings) + ExprsFindings(es, staged)
      {
        assert es[k..][1..] == es[k + 1..];
        VisitExpr(es[k]);
      }
    }

    /** `_bind`. */
    method Bind(target: Target, isStaged: bool)
      modifies this`staged
      ensures staged == Rebound(old(staged), BoundNames(target), isStaged)
    {
      var names := BoundNames(target);
      staged := staged - names;
      if isStaged {
        staged := staged + names;
      }
    }

    method VisitBlock(block: seq<Stmt>)
      modifies this
      ensures staged == ExitB(block, old(staged))
      ensures findings == old(findings) + FindingsB(block, old(staged))
      decreases block, 0
    {
      for k := 0 to |block|
        invariant ExitB(block[k..], staged) == ExitB(block, old(staged))
        invariant findings + FindingsB(block[k..], staged)
                  == old(findings) + FindingsB(block, old(staged))
      {
        VisitStmt(block[k]);
      }
    }

    /** `visit_FunctionDef` and `visit_ClassDef`: the outer names are put aside. */
    method VisitScope(before: seq<Expr>, body: seq<Stmt>, after: seq<Expr>)
      modifies this
      ensures staged == old(staged)
      ensures findings == old(findings) + ScopeFindings(before, body, after)
      decreases body, 1
    {
      var outer := staged;
      staged := {};
      VisitExprs(before);
      VisitBlock(body);
      VisitExprs(after);
      staged := outer;
      Associative(old(findings), ExprsFindings(before, {}), FindingsB(body, {}),
                  ExprsFindings(after, ExitB(body, {})));
    }

    method VisitItems(items: seq<WithItem>) returns (bound: set<string>)
      modifies this
      ensures bound == ItemNames(items)
      ensures staged == AfterItems(items, old(staged))
      ensures findings == old(findings) + ItemFindings(items, old(staged))
    {
      bound := {};
      for k := 0 to |items|
        invariant bound + ItemNames(items[k..]) == ItemNames(items)
        invariant AfterItems(items[k..], staged) == AfterItems(items, old(staged))
        invariant findings + ItemFindings(items[k..], staged)
                  == old(findings) + ItemFindings(items, old(staged))
      {
        VisitExpr(items[k].context);
        bound := bound + BoundNames(items[k].target);
        Bind(items[k].target, IsBinderCall(items[k].context));
      }
    }

    method VisitHandlers(handlers: seq<Handler>)
      modifies this
      ensures staged == ExitH(handlers, old(staged))
      ensures findings == old(findings) + FindingsH(handlers, old(staged))
      decreases handlers
    {
      for k := 0 to |handlers|
        invariant ExitH(handlers[k..], staged) == ExitH(handlers, old(staged))
        invariant findings + FindingsH(handlers[k..], staged)
                  == old(findings) + FindingsH(handlers, old(staged))
      {
        VisitBlock(handlers[k].body);
      }
    }

    method VisitAssign(targets: seq<Target>, value: Expr)
      modifies this
      ensures staged == BindTargets(old(staged), targets, IsStagingExpr(value, old(staged)))
      ensures findings == old(findings) + ExprFindings(value, old(staged))
    {
      VisitExpr(value);
      var isStaged := IsStagingExpr(value, staged);
      for k := 0 to |targets|
        invariant BindTargets(staged, targets[k..], isStaged) == BindTargets(old(staged), targets, isStaged)
        invariant findings == old(findings) + ExprFindings(value, old(staged))
      {
        Bind(targets[k], isStaged);
      }
    }

    method VisitWith(stmt: Stmt)
      requires stmt.With?
      modifies this
      ensures staged == Exit(stmt, old(staged))
      ensures findings == old(findings) + Findings(stmt, old(staged))
      decreases stmt, 0
    {
      var outer := staged;
      var bound := VisitItems(stmt.items);
      VisitBlock(stmt.body);
      staged := staged * (outer - bound);
    }

    method VisitIf(stmt: Stmt)
      requires stmt.If?
      modifies this
      ensures staged == Exit(stmt, old(staged))
      ensures findings == old(findings) + Findings(stmt, old(staged))
      decreases stmt, 0
    {
      VisitExpr(stmt.test);
      var before := staged;
      VisitBlock(stmt.body);
      var body := staged;
      staged := before;
      VisitBlock(stmt.orelse);
      staged := staged * body;
      Associative(old(findings), ExprFindings(stmt.test, before), FindingsB(stmt.body, before),
                  FindingsB(stmt.orelse, before));
    }

    method VisitFor(stmt: Stmt)
      requires stmt.For?
      modifies this
      ensures staged == Exit(stmt, old(staged))
      ensures findings == old(findings) + Findings(stmt, old(staged))
      decreases stmt, 0
    {
      VisitExpr(stmt.iter);
      Bind(stmt.target, false);
      var before := staged;
      VisitBlock(stmt.body);
      ghost var afterBody := staged;
      VisitBlock(stmt.orelse);
      staged := staged * before;
      Associative(old(findings), ExprFindings(stmt.iter, old(staged)), FindingsB(stmt.body, before),
                  FindingsB(stmt.orelse, afterBody));
    }

    /** `generic_visit` of a `while`. */
    method VisitWhile(stmt: Stmt)
      requires stmt.While?
      modifies this
      ensures staged == Exit(stmt, old(staged))
      ensures findings == old(findings) + Findings(stmt, old(staged))
      decreases stmt, 0
    {
      VisitExpr(stmt.test);
      VisitBlock(stmt.body);
      ghost var afterBody := staged;
      VisitBlock(stmt.orelse);
      Associative(old(findings), ExprFindings(stmt.test, old(staged)),
                  FindingsB(stmt.body, old(staged)), FindingsB(stmt.orelse, afterBody));
    }

    /** `generic_visit` of a `try`. */
    method VisitTry(stmt: Stmt)
      requires stmt.Try?
      modifies this
      ensures staged == Exit(stmt, old(staged))
      ensures findings == old(findings) + Findings(stmt, old(staged))
      decreases stmt, 0
    {
      VisitBlock(stmt.body);
      ghost var s1 := staged;
      VisitHandlers(stmt.handlers);
      ghost var s2 := staged;
      VisitBlock(stmt.orelse);
      ghost var s3 := staged;
      VisitBlock(stmt.final);
      FourParts(old(findings), FindingsB(stmt.body, old(staged)), FindingsH(stmt.handlers, s1),
                FindingsB(stmt.orelse, s2), FindingsB(stmt.final, s3));
    }

    method VisitStmt(stmt: Stmt)
      modifies this
      ensures staged == Exit(stmt, old(staged))
      ensures findings == old(findings) + Findings(stmt, old(staged))
      decreases stmt, 1
    {
      match stmt {
        case ExprStmt(e) => VisitExpr(e);
        case Return(e) => VisitExpr(e);
        case Raise(e) => VisitExpr(e);
        case Assign(targets, value) => VisitAssign(targets, value);
        case With(_, _) => VisitWith(stmt);
        case If(_, _, _) => VisitIf(stmt);
        case For(_, _, _, _) => VisitFor(stmt);
        case While(_, _, _) => VisitWhile(stmt);
        case Try(_, _, _, _) => VisitTry(stmt);
        case Def(_, defaults, body, decorators) => VisitScope(defaults, body, decorators);
        case Class(_, bases, body, decorators) => VisitScope(bases, body, decorators);
        case Rebind(_, exprs) => VisitExprs(exprs);
        case AnnOnly =>
        case Break =>
        case Continue =>
      }
    }
  }

  /** Scanning a module, before suppression comments are taken into account. */
  method Scan(program: seq<Stmt>) returns (findings: seq<Finding>)
    ensures findings == FindingsB(program, {})
  {
    var scanner := new Scanner();
    scanner.VisitBlock(program);
    findings := scanner.findings;
  }
}
