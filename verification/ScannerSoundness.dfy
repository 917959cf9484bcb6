/** What the scanner's silence means on programs that it follows: what tracking asks for is a check on the text
    alone. */
module ScannerSoundness {
  import opened PyAst
  import opened WriteScanner
  import opened PyRuns
  import opened StagingFlow
  import opened FlowSoundness
  import opened RunsInside
  import opened ScannerExact
  import opened ScannerMonotonicity
  import opened StagingMonotonicity

  // ----- how the scanner reads calls

  /** An `.open` that the scanner takes for the method of a path, while its receiver may be a module or a class. */
  predicate ReadRight(call: Expr, staged: set<string>)
    requires call.Call?
  {
    call.func.Attribute? && call.func.attr == "open" && !QualifiedOpen(call.func) && MayBeOther(call.func.obj, staged)
    ==> QuietOpen(call, staged, FILE_KEYWORDS)
  }

  predicate Readable(e: Expr, staged: set<string>) {
    match e
    case Attribute(obj, _) => Readable(obj, staged)
    case Div(left, right) => Readable(left, staged) && Readable(right, staged)
    case Call(func, args, keywords, _) =>
      ReadRight(e, staged) && Readable(func, staged) && ReadableAll(args, staged) && ReadableKeywords(keywords, staged)
    case Compound(parts) => ReadableAll(parts, staged)
    case _ => true
  }

  predicate ReadableAll(es: seq<Expr>, staged: set<string>) {
    es == [] || (Readable(es[0], staged) && ReadableAll(es[1..], staged))
  }

  predicate ReadableKeywords(ks: seq<Keyword>, staged: set<string>) {
    ks == [] || (Readable(ks[0].value, staged) && ReadableKeywords(ks[1..], staged))
  }

  predicate ReadableItems(items: seq<WithItem>, staged: set<string>) {
    items == []
    || (Readable(items[0].context, staged) && ReadableItems(items[1..], EnterOne(true, items[0], staged)))
  }

  lemma {:induction false} NamedFile(ks: seq<Keyword>)
    ensures NamedArg(ks, {"file"}) == KeywordArg(ks, "file")
    decreases ks
  {
    if ks != [] { NamedFile(ks[1..]); }
  }

  /** The scanner's silence about a call is right exactly if it reads the call right. */
  lemma {:induction false} SilentCall(call: Expr, staged: set<string>)
    requires call.Call? && CallFindings(call, staged) == []
    ensures QuietCall(call, staged) <==> ReadRight(call, staged)
  {
    NamedFile(call.keywords);
    hide MayBeOther, IsTruncatingMode, IsStagingExpr, KeywordArg, NamedArg;
  }

  lemma {:induction false} SilentExpr(e: Expr, staged: set<string>)
    requires ExprFindings(e, staged) == [] && Readable(e, staged)
    ensures QuietExpr(e, staged)
    decreases e
  {
    match e
    case Attribute(obj, _) => SilentExpr(obj, staged);
    case Div(left, right) =>
      SilentExpr(left, staged);
      SilentExpr(right, staged);
    case Call(func, args, keywords, _) =>
      SilentCall(e, staged);
      SilentExpr(func, staged);
      SilentExprs(args, staged);
      SilentKeywords(keywords, staged);
    case Compound(parts) => SilentExprs(parts, staged);
    case _ =>
  }

  lemma {:induction false} SilentExprs(es: seq<Expr>, staged: set<string>)
    requires ExprsFindings(es, staged) == [] && ReadableAll(es, staged)
    ensures QuietExprs(es, staged)
    decreases es
  {
    if es != [] {
      SilentExpr(es[0], staged);
      SilentExprs(es[1..], staged);
    }
  }

  lemma {:induction false} SilentKeywords(ks: seq<Keyword>, staged: set<string>)
    requires KeywordFindings(ks, staged) == [] && ReadableKeywords(ks, staged)
    ensures QuietKeywords(ks, staged)
    decreases ks
  {
    if ks != [] {
      SilentExpr(ks[0].value, staged);
      SilentKeywords(ks[1..], staged);
    }
  }

  lemma {:induction false} SilentItems(items: seq<WithItem>, staged: set<string>)
    requires ItemFindings(items, staged) == [] && ReadableItems(items, staged)
    ensures QuietItems(items, staged)
    decreases items
  {
    if items != [] {
      SilentExpr(items[0].context, staged);
      SilentItems(items[1..], EnterOne(true, items[0], staged));
    }
  }

  // ----- tracked programs

  /** What the scanner goes on trusting after a statement is private then. */
  predicate Keeps(ever: bool, stmt: Stmt, staged: set<string>) {
    Follow(ever, stmt, staged).next.Names? ==> Exit(stmt, staged) <= Follow(ever, stmt, staged).next.s
  }

  /** Assignments, branches and scopes need nothing but that no staged name is bound by something else, that calls are
      read right and that decorators are quiet with the names around them.  With `ever`, a `with` whose items are all
      staging binders needs nothing; any other `with`, and a `with` when only existing places count, has to keep the
      names that are trusted afterwards.  Loops and `try`, which the scanner does not follow, need the reference. */
  predicate Tracked(ever: bool, stmt: Stmt, staged: set<string>)
    decreases stmt, 0
  {
    match stmt
    case ExprStmt(e) => Readable(e, staged)
    case Return(e) => Readable(e, staged)
    case Raise(e) => Readable(e, staged)
    case Assign(_, value) => Readable(value, staged)
    case Rebind(names, exprs) => ReadableAll(exprs, staged) && names !! staged
    case With(items, body) =>
      && ReadableItems(items, staged) && TrackedB(ever, body, AfterItems(items, staged))
      && ((ever && !MaySwallow(items)) || Keeps(ever, stmt, staged))
    case If(test, body, orelse) =>
      Readable(test, staged) && TrackedB(ever, body, staged) && TrackedB(ever, orelse, staged)
    case For(_, _, _, _) => Agrees(ever, stmt, staged)
    case While(_, _, _) => Agrees(ever, stmt, staged)
    case Try(_, _, _, _) => Agrees(ever, stmt, staged)
    case Def(name, defaults, body, decorators) =>
      && name !in staged && ReadableAll(defaults, {}) && QuietExprs(decorators, staged) && TrackedB(ever, body, {})
    case Class(name, bases, body, decorators) =>
      && name !in staged && ReadableAll(bases, {}) && QuietExprs(decorators, staged) && TrackedB(ever, body, {})
    case _ => true
  }

  predicate TrackedB(ever: bool, block: seq<Stmt>, staged: set<string>)
    decreases block, 0
  {
    block == [] || (Tracked(ever, block[0], staged) && TrackedB(ever, block[1..], Exit(block[0], staged)))
  }

  lemma {:induction false} InsideItems(items: seq<WithItem>, staged: set<string>)
    ensures AfterEnter(true, items, staged) == AfterItems(items, staged)
    decreases items
  {
    if items != [] { InsideItems(items[1..], EnterOne(true, items[0], staged)); }
  }

  lemma {:induction false} NoneSwallowed(ever: bool, items: seq<WithItem>, s: set<string>)
    requires !MaySwallow(items)
    ensures EnterSwallowed(ever, items, s, false).Never?
    decreases items
  {
    if items != [] { NoneSwallowed(ever, items[1..], EnterOne(ever, items[0], s)); }
  }

  /** A tracked statement without findings is quiet, and the reference promises at least what the scanner trusts. */
  lemma {:induction false} TrackedAgrees(ever: bool, stmt: Stmt, staged: set<string>, s: set<string>)
    requires staged <= s && Tracked(ever, stmt, staged) && Findings(stmt, staged) == []
    ensures Quiet(ever, stmt, s)
    ensures Follow(ever, stmt, s).next.Names? ==> Exit(stmt, staged) <= Follow(ever, stmt, s).next.s
    decreases stmt, 1
  {
    hide QuietB, QuietExpr, QuietFinal, Pending, LoopNames, FollowB, WithFlow, FinalFlow, LoopFlow, ExitB, ExitH,
         FindingsB, FindingsH, ExprFindings, TrackedB;
    match stmt
    case ExprStmt(e) =>
      SilentExpr(e, staged);
      QuietMore(e, staged, s);
    case Return(e) =>
      SilentExpr(e, staged);
      QuietMore(e, staged, s);
    case Raise(e) =>
      SilentExpr(e, staged);
      QuietMore(e, staged, s);
    case Assign(targets, value) =>
      SilentExpr(value, staged);
      QuietMore(value, staged, s);
      if IsStagingExpr(value, staged) { StagingMonotone(value, staged, s); }
      TargetsMonotone(targets, staged, s, IsStagingExpr(value, staged), IsStagingExpr(value, s));
    case Rebind(_, exprs) =>
      SilentExprs(exprs, staged);
      QuietMoreAll(exprs, staged, s);
    case With(_, _) => WithAgrees(ever, stmt, staged, s);
    case If(test, body, orelse) =>
      SilentExpr(test, staged);
      QuietMore(test, staged, s);
      BlockAgrees(ever, body, staged, s);
      BlockAgrees(ever, orelse, staged, s);
    case For(_, _, _, _) => AgreesMore(ever, stmt, staged, s);
    case While(_, _, _) => AgreesMore(ever, stmt, staged, s);
    case Try(_, _, _, _) => AgreesMore(ever, stmt, staged, s);
    case Def(_, _, _, _) => ScopeAgrees(ever, stmt, staged, s);
    case Class(_, _, _, _) => ScopeAgrees(ever, stmt, staged, s);
    case _ =>
  }

  lemma {:induction false} AgreesMore(ever: bool, stmt: Stmt, staged: set<string>, s: set<string>)
    requires staged <= s && Agrees(ever, stmt, staged)
    ensures Quiet(ever, stmt, s)
    ensures Follow(ever, stmt, s).next.Names? ==> Exit(stmt, staged) <= Follow(ever, stmt, s).next.s
  {
    hide Quiet, Follow, Exit;
    QuietMonotone(ever, stmt, staged, s);
    FollowMonotone(ever, stmt, staged, s);
  }

  lemma {:induction false} WithAgrees(ever: bool, stmt: Stmt, staged: set<string>, s: set<string>)
    requires stmt.With? && staged <= s && Tracked(ever, stmt, staged) && Findings(stmt, staged) == []
    ensures Quiet(ever, stmt, s)
    ensures Follow(ever, stmt, s).next.Names? ==> Exit(stmt, staged) <= Follow(ever, stmt, s).next.s
    decreases stmt, 0
  {
    var items, body := stmt.items, stmt.body;
    InsideItems(items, staged);
    SilentItems(items, staged);
    QuietMoreItems(items, staged, s);
    EnterMonotone(true, items, staged, s, false);
    BlockAgrees(ever, body, AfterEnter(true, items, staged), AfterEnter(true, items, s));
    if ever && !MaySwallow(items) {
      NoneSwallowed(ever, items, s);
    } else {
      FollowMonotone(ever, stmt, staged, s);
    }
  }

  lemma {:induction false} ScopeAgrees(ever: bool, stmt: Stmt, staged: set<string>, s: set<string>)
    requires (stmt.Def? || stmt.Class?) && staged <= s && Tracked(ever, stmt, staged) && Findings(stmt, staged) == []
    ensures Quiet(ever, stmt, s)
    ensures Follow(ever, stmt, s).next.Names? ==> Exit(stmt, staged) <= Follow(ever, stmt, s).next.s
    decreases stmt, 0
  {
    var before := if stmt.Def? then stmt.defaults else stmt.bases;
    SilentExprs(before, {});
    QuietMoreAll(before, {}, s);
    QuietMoreAll(stmt.decorators, staged, s);
    BlockAgrees(ever, stmt.body, {}, {});
    BlockAgrees(ever, stmt.body, {}, s);
  }

  lemma {:induction false} BlockAgrees(ever: bool, block: seq<Stmt>, staged: set<string>, s: set<string>)
    requires staged <= s && TrackedB(ever, block, staged) && FindingsB(block, staged) == []
    ensures QuietB(ever, block, s)
    ensures FollowB(ever, block, s).next.Names? ==> ExitB(block, staged) <= FollowB(ever, block, s).next.s
    decreases block, 0
  {
    if block != [] {
      TrackedAgrees(ever, block[0], staged, s);
      var f := Follow(ever, block[0], s);
      if f.next.Names? { BlockAgrees(ever, block[1..], Exit(block[0], staged), f.next.s); }
    }
  }

  /** The scanner is sound: in a tracked module without findings no run truncates a path outside the private places
      that have been made, or outside those that exist at that moment. */
  lemma {:induction false} SilenceMeansStaged(ever: bool, program: seq<Stmt>, o: Oracle)
    requires TrackedB(ever, program, {}) && FindingsB(program, {}) == []
    ensures Marks(ever, Run(program, o)) == {}
  {
    BlockAgrees(ever, program, {}, {});
    QuietMeansStaged(ever, program, o);
  }
}
