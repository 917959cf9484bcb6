/** What the scanner reports: which call, at which line, and as what. */
module ScannerReport {
  import opened PyAst
  import opened WriteScanner

  // ----- one call

  /** The callee is the plain name, or the last name of an attribute. */
  ghost predicate Calls(func: Expr, name: string) {
    func == Name(name) || exists obj :: func == Attribute(obj, name)
  }

  /** An argument given by position, or else by the first keyword of its name. */
  ghost predicate Given(call: Expr, k: nat, name: string, arg: Expr)
    requires call.Call?
  {
    if k < |call.args| then arg == call.args[k] else exists j: nat :: FirstKeyword(call.keywords, name, arg, j)
  }

  ghost predicate FirstKeyword(keywords: seq<Keyword>, name: string, arg: Expr, j: nat) {
    j < |keywords| && keywords[j] == Keyword(name, arg) && forall i | 0 <= i < j :: keywords[i].arg != name
  }

  /** The mode is a text with a `w`. */
  ghost predicate Truncates(call: Expr, k: nat)
    requires call.Call?
  {
    exists text :: Given(call, k, "mode", Str(text)) && 'w' in text
  }

  ghost predicate StagedTarget(call: Expr, staged: set<string>)
    requires call.Call?
  {
    exists arg :: Given(call, 0, "file", arg) && IsStagingExpr(arg, staged)
  }

  /** A method named `open` of anything but the modules `io` and `builtins`. */
  ghost predicate OpenMethod(func: Expr) {
    func.Attribute? && func.attr == "open" && func.obj != Name("io") && func.obj != Name("builtins")
  }

  /** The finding is what there is to report about the call. */
  ghost predicate Reported(call: Expr, staged: set<string>, f: Finding) {
    && call.Call? && f.line == call.line
    && (|| WritesText(call, staged, f.what)
        || (OpenMethod(call.func) && Truncates(call, 0) && !IsStagingExpr(call.func.obj, staged) && f.what == ".open")
        || (&& f.what in ["open", "fdopen"] && Calls(call.func, f.what) && !OpenMethod(call.func)
            && Truncates(call, 1) && !StagedTarget(call, staged)))
  }

  ghost predicate WritesText(call: Expr, staged: set<string>, what: string)
    requires call.Call?
  {
    && what in ["write_text", "write_bytes"]
    && exists obj :: call.func == Attribute(obj, what) && !IsStagingExpr(obj, staged)
  }

  lemma {:induction false} KeywordExactly(keywords: seq<Keyword>, name: string, arg: Expr)
    ensures KeywordArg(keywords, name) == [arg] <==> exists j: nat :: FirstKeyword(keywords, name, arg, j)
    ensures |KeywordArg(keywords, name)| <= 1
  {
    if keywords != [] {
      var rest := keywords[1..];
      KeywordExactly(rest, name, arg);
      if keywords[0].arg == name {
        if keywords[0].value == arg { assert FirstKeyword(keywords, name, arg, 0); }
      } else {
        if j: nat :| FirstKeyword(rest, name, arg, j) {
          assert forall i | 0 < i <= j :: keywords[i] == rest[i - 1];
          assert FirstKeyword(keywords, name, arg, j + 1);
        }
        if j: nat :| FirstKeyword(keywords, name, arg, j) {
          assert forall i | 0 <= i < j - 1 :: rest[i] == keywords[i + 1];
          assert FirstKeyword(rest, name, arg, j - 1);
        }
      }
    }
  }

  lemma {:induction false} GivenExactly(call: Expr, k: nat, name: string, arg: Expr)
    requires call.Call?
    ensures ArgOr(call.args, k, call.keywords, name) == [arg] <==> Given(call, k, name, arg)
    ensures |ArgOr(call.args, k, call.keywords, name)| <= 1
  {
    KeywordExactly(call.keywords, name, arg);
  }

  lemma {:induction false} TruncatesExactly(call: Expr, k: nat)
    requires call.Call?
    ensures IsTruncatingMode(ArgOr(call.args, k, call.keywords, "mode")) <==> Truncates(call, k)
  {
    var mode := ArgOr(call.args, k, call.keywords, "mode");
    forall text ensures mode == [Str(text)] <==> Given(call, k, "mode", Str(text)) {
      GivenExactly(call, k, "mode", Str(text));
    }
    GivenExactly(call, k, "mode", Const);
    if mode != [] && mode[0].Str? { assert mode == [Str(mode[0].value)]; }
    hide ArgOr, Given;
  }

  lemma {:induction false} TargetExactly(call: Expr, staged: set<string>)
    requires call.Call?
    ensures var target := ArgOr(call.args, 0, call.keywords, "file");
      target != [] && IsStagingExpr(target[0], staged) <==> StagedTarget(call, staged)
  {
    var target := ArgOr(call.args, 0, call.keywords, "file");
    forall arg ensures target == [arg] <==> Given(call, 0, "file", arg) { GivenExactly(call, 0, "file", arg); }
    GivenExactly(call, 0, "file", Const);
    if target != [] { assert target == [target[0]]; }
    hide ArgOr, Given, IsStagingExpr;
  }

  /** A call has at most one finding, and it is the one that there is to report. */
  lemma {:induction false} CallReport(call: Expr, staged: set<string>, f: Finding)
    requires call.Call?
    ensures |CallFindings(call, staged)| <= 1 && (f in CallFindings(call, staged) <==> Reported(call, staged, f))
  {
    TruncatesExactly(call, 0);
    TruncatesExactly(call, 1);
    TargetExactly(call, staged);
    hide ArgOr, Truncates, StagedTarget, IsTruncatingMode, IsStagingExpr;
  }

  /** A staging binder is called by its name or as an attribute. */
  lemma {:induction false} BinderExactly(e: Expr)
    ensures IsBinderCall(e) <==> e.Call? && exists name ::
      Calls(e.func, name) && name in ["atomic_output_file", "temp_output_file", "temp_output_dir", "TemporaryDirectory",
                                      "NamedTemporaryFile", "mkdtemp", "mkstemp"]
  {
    if IsBinderCall(e) { assert Calls(e.func, CalleeName(e.func)); }
  }

  // ----- whole texts

  function CallsIn(e: Expr): set<Expr> {
    match e
    case Attribute(obj, _) => CallsIn(obj)
    case Div(left, right) => CallsIn(left) + CallsIn(right)
    case Call(func, args, keywords, _) => {e} + CallsIn(func) + CallsInAll(args) + CallsInKeywords(keywords)
    case Compound(parts) => CallsInAll(parts)
    case _ => {}
  }

  function CallsInAll(es: seq<Expr>): set<Expr> {
    if es == [] then {} else CallsIn(es[0]) + CallsInAll(es[1..])
  }

  function CallsInKeywords(ks: seq<Keyword>): set<Expr> {
    if ks == [] then {} else CallsIn(ks[0].value) + CallsInKeywords(ks[1..])
  }

  ghost predicate Reports(calls: set<Expr>, staged: set<string>, f: Finding) {
    exists call | call in calls :: Reported(call, staged, f)
  }

  /** Visiting an expression reports what there is to report about its calls, however deep, and nothing else. */
  lemma {:induction false} ExprReport(e: Expr, staged: set<string>, f: Finding)
    ensures f in ExprFindings(e, staged) <==> Reports(CallsIn(e), staged, f)
    decreases e
  {
    hide Reported, CallFindings;
    match e
    case Attribute(obj, _) => ExprReport(obj, staged, f);
    case Div(left, right) =>
      ExprReport(left, staged, f);
      ExprReport(right, staged, f);
    case Call(func, args, keywords, _) =>
      CallReport(e, staged, f);
      ExprReport(func, staged, f);
      ExprsReport(args, staged, f);
      KeywordsReport(keywords, staged, f);
    case Compound(parts) => ExprsReport(parts, staged, f);
    case _ =>
  }

  lemma {:induction false} ExprsReport(es: seq<Expr>, staged: set<string>, f: Finding)
    ensures f in ExprsFindings(es, staged) <==> Reports(CallsInAll(es), staged, f)
    decreases es
  {
    hide Reported;
    if es != [] {
      ExprReport(es[0], staged, f);
      ExprsReport(es[1..], staged, f);
    }
  }

  lemma {:induction false} KeywordsReport(ks: seq<Keyword>, staged: set<string>, f: Finding)
    ensures f in KeywordFindings(ks, staged) <==> Reports(CallsInKeywords(ks), staged, f)
    decreases ks
  {
    hide Reported;
    if ks != [] {
      ExprReport(ks[0].value, staged, f);
      KeywordsReport(ks[1..], staged, f);
    }
  }

  /** The calls of a statement, wherever they stand in it. */
  function CallsOfStmt(stmt: Stmt): set<Expr> {
    match stmt
    case ExprStmt(e) => CallsIn(e)
    case Return(e) => CallsIn(e)
    case Raise(e) => CallsIn(e)
    case Assign(_, value) => CallsIn(value)
    case Rebind(_, exprs) => CallsInAll(exprs)
    case With(items, body) => CallsInItems(items) + CallsOfBlock(body)
    case If(test, body, orelse) => CallsIn(test) + CallsOfBlock(body) + CallsOfBlock(orelse)
    case For(_, iter, body, orelse) => CallsIn(iter) + CallsOfBlock(body) + CallsOfBlock(orelse)
    case While(test, body, orelse) => CallsIn(test) + CallsOfBlock(body) + CallsOfBlock(orelse)
    case Try(body, handlers, orelse, final) =>
      CallsOfBlock(body) + CallsInHandlers(handlers) + CallsOfBlock(orelse) + CallsOfBlock(final)
    case Def(_, defaults, body, decorators) => CallsInAll(defaults) + CallsOfBlock(body) + CallsInAll(decorators)
    case Class(_, bases, body, decorators) => CallsInAll(bases) + CallsOfBlock(body) + CallsInAll(decorators)
    case _ => {}
  }

  function CallsInItems(items: seq<WithItem>): set<Expr> {
    if items == [] then {} else CallsIn(items[0].context) + CallsInItems(items[1..])
  }

  function CallsOfBlock(block: seq<Stmt>): set<Expr> {
    if block == [] then {} else CallsOfStmt(block[0]) + CallsOfBlock(block[1..])
  }

  function CallsInHandlers(handlers: seq<Handler>): set<Expr> {
    if handlers == [] then {} else CallsOfBlock(handlers[0].body) + CallsInHandlers(handlers[1..])
  }

  /** Some of the calls is one that the finding is about, for some staged names. */
  ghost predicate PointsAt(calls: set<Expr>, f: Finding) {
    exists staged :: Reports(calls, staged, f)
  }

  /** Some of the calls is one that the finding is about whatever is staged. */
  ghost predicate Certain(calls: set<Expr>, f: Finding) {
    exists call | call in calls :: Always(call, f)
  }

  ghost predicate Always(call: Expr, f: Finding) {
    forall staged :: Reported(call, staged, f)
  }

  /** The findings are about calls of the text, and no call is passed over. */
  ghost predicate Accounts(findings: seq<Finding>, calls: set<Expr>) {
    && (forall f | f in findings :: PointsAt(calls, f))
    && (forall f | Certain(calls, f) :: f in findings)
  }

  lemma {:induction false} ExprAccounts(e: Expr, staged: set<string>)
    ensures Accounts(ExprFindings(e, staged), CallsIn(e))
  {
    forall f ensures f in ExprFindings(e, staged) <==> Reports(CallsIn(e), staged, f) { ExprReport(e, staged, f); }
    FromReports(ExprFindings(e, staged), CallsIn(e), staged);
  }

  lemma {:induction false} ExprsAccount(es: seq<Expr>, staged: set<string>)
    ensures Accounts(ExprsFindings(es, staged), CallsInAll(es))
  {
    forall f ensures f in ExprsFindings(es, staged) <==> Reports(CallsInAll(es), staged, f) {
      ExprsReport(es, staged, f);
    }
    FromReports(ExprsFindings(es, staged), CallsInAll(es), staged);
  }

  lemma {:induction false} FromReports(findings: seq<Finding>, calls: set<Expr>, staged: set<string>)
    requires forall f :: f in findings <==> Reports(calls, staged, f)
    ensures Accounts(findings, calls)
  {
    hide Reported;
    forall f | Certain(calls, f) ensures f in findings {
      var call :| call in calls && Always(call, f);
      assert Reported(call, staged, f);
    }
  }

  lemma {:induction false} Together(a: seq<Finding>, b: seq<Finding>, c: set<Expr>, d: set<Expr>)
    requires Accounts(a, c) && Accounts(b, d)
    ensures Accounts(a + b, c + d)
  {
    hide Reported, Always;
    forall f | f in a + b ensures PointsAt(c + d, f) {
      if f in a {
        var staged :| Reports(c, staged, f);
        assert Reports(c + d, staged, f);
      } else {
        var staged :| Reports(d, staged, f);
        assert Reports(c + d, staged, f);
      }
    }
  }

  lemma {:induction false} NoneAccount()
    ensures Accounts([], {})
  {
  }

  /** What a statement is reported for are its own calls, at their lines, and no call of it escapes. */
  lemma {:induction false} StmtAccounts(stmt: Stmt, staged: set<string>)
    ensures Accounts(Findings(stmt, staged), CallsOfStmt(stmt))
    decreases stmt, 1
  {
    hide Accounts;
    match stmt
    case ExprStmt(e) => ExprAccounts(e, staged);
    case Return(e) => ExprAccounts(e, staged);
    case Raise(e) => ExprAccounts(e, staged);
    case Assign(_, value) => ExprAccounts(value, staged);
    case Rebind(_, exprs) => ExprsAccount(exprs, staged);
    case With(items, body) =>
      ItemsAccount(items, staged);
      BlockAccounts(body, AfterItems(items, staged));
      Together(ItemFindings(items, staged), FindingsB(body, AfterItems(items, staged)), CallsInItems(items),
               CallsOfBlock(body));
    case If(test, body, orelse) =>
      BlockAccounts(body, staged);
      BlockAccounts(orelse, staged);
      ThreeAccount(test, body, orelse, staged, staged, staged);
    case For(target, iter, body, orelse) =>
      var before := staged - BoundNames(target);
      BlockAccounts(body, before);
      BlockAccounts(orelse, ExitB(body, before));
      ThreeAccount(iter, body, orelse, staged, before, ExitB(body, before));
    case While(test, body, orelse) =>
      BlockAccounts(body, staged);
      BlockAccounts(orelse, ExitB(body, staged));
      ThreeAccount(test, body, orelse, staged, staged, ExitB(body, staged));
    case Try(_, _, _, _) => TryAccounts(stmt, staged);
    case Def(_, defaults, body, decorators) => ScopeAccounts(defaults, body, decorators);
    case Class(_, bases, body, decorators) => ScopeAccounts(bases, body, decorators);
    case _ => NoneAccount();
  }

  lemma {:induction false} ThreeAccount(e: Expr, body: seq<Stmt>, orelse: seq<Stmt>, s: set<string>, t: set<string>,
                                        u: set<string>)
    requires Accounts(FindingsB(body, t), CallsOfBlock(body)) && Accounts(FindingsB(orelse, u), CallsOfBlock(orelse))
    ensures Accounts(ExprFindings(e, s) + FindingsB(body, t) + FindingsB(orelse, u),
                     CallsIn(e) + CallsOfBlock(body) + CallsOfBlock(orelse))
  {
    hide Accounts;
    ExprAccounts(e, s);
    Together(ExprFindings(e, s), FindingsB(body, t), CallsIn(e), CallsOfBlock(body));
    Together(ExprFindings(e, s) + FindingsB(body, t), FindingsB(orelse, u), CallsIn(e) + CallsOfBlock(body),
             CallsOfBlock(orelse));
  }

  lemma {:induction false} TryAccounts(stmt: Stmt, staged: set<string>)
    requires stmt.Try?
    ensures Accounts(Findings(stmt, staged), CallsOfStmt(stmt))
    decreases stmt, 0
  {
    hide Accounts, FindingsB, FindingsH, ExitB, ExitH, CallsOfBlock, CallsInHandlers;
    var s1 := ExitB(stmt.body, staged);
    var s2 := ExitH(stmt.handlers, s1);
    var s3 := ExitB(stmt.orelse, s2);
    BlockAccounts(stmt.body, staged);
    HandlersAccount(stmt.handlers, s1);
    BlockAccounts(stmt.orelse, s2);
    BlockAccounts(stmt.final, s3);
    var a, b := FindingsB(stmt.body, staged), FindingsH(stmt.handlers, s1);
    var c, d := CallsOfBlock(stmt.body), CallsInHandlers(stmt.handlers);
    Together(a, b, c, d);
    Together(a + b, FindingsB(stmt.orelse, s2), c + d, CallsOfBlock(stmt.orelse));
    Together(a + b + FindingsB(stmt.orelse, s2), FindingsB(stmt.final, s3), c + d + CallsOfBlock(stmt.orelse),
             CallsOfBlock(stmt.final));
  }

  lemma {:induction false} ScopeAccounts(before: seq<Expr>, body: seq<Stmt>, after: seq<Expr>)
    ensures Accounts(ScopeFindings(before, body, after), CallsInAll(before) + CallsOfBlock(body) + CallsInAll(after))
    decreases body, 1
  {
    hide Accounts;
    var end := ExitB(body, {});
    ExprsAccount(before, {});
    BlockAccounts(body, {});
    ExprsAccount(after, end);
    Together(ExprsFindings(before, {}), FindingsB(body, {}), CallsInAll(before), CallsOfBlock(body));
    Together(ExprsFindings(before, {}) + FindingsB(body, {}), ExprsFindings(after, end),
             CallsInAll(before) + CallsOfBlock(body), CallsInAll(after));
  }

  lemma {:induction false} ItemsAccount(items: seq<WithItem>, staged: set<string>)
    ensures Accounts(ItemFindings(items, staged), CallsInItems(items))
    decreases items
  {
    hide Accounts;
    if items == [] {
      NoneAccount();
    } else {
      var next := Rebound(staged, BoundNames(items[0].target), IsBinderCall(items[0].context));
      ExprAccounts(items[0].context, staged);
      ItemsAccount(items[1..], next);
      Together(ExprFindings(items[0].context, staged), ItemFindings(items[1..], next), CallsIn(items[0].context),
               CallsInItems(items[1..]));
    }
  }

  lemma {:induction false} BlockAccounts(block: seq<Stmt>, staged: set<string>)
    ensures Accounts(FindingsB(block, staged), CallsOfBlock(block))
    decreases block, 0
  {
    hide Accounts;
    if block == [] {
      NoneAccount();
    } else {
      StmtAccounts(block[0], staged);
      BlockAccounts(block[1..], Exit(block[0], staged));
      Together(Findings(block[0], staged), FindingsB(block[1..], Exit(block[0], staged)), CallsOfStmt(block[0]),
               CallsOfBlock(block[1..]));
    }
  }

  lemma {:induction false} HandlersAccount(handlers: seq<Handler>, staged: set<string>)
    ensures Accounts(FindingsH(handlers, staged), CallsInHandlers(handlers))
    decreases handlers
  {
    hide Accounts;
    if handlers == [] {
      NoneAccount();
    } else {
      var next := ExitB(handlers[0].body, staged);
      BlockAccounts(handlers[0].body, staged);
      HandlersAccount(handlers[1..], next);
      Together(FindingsB(handlers[0].body, staged), FindingsH(handlers[1..], next), CallsOfBlock(handlers[0].body),
               CallsInHandlers(handlers[1..]));
    }
  }
}
