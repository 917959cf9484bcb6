/** Trusting fewer names never hides a finding. */
module ScannerMonotonicity {
  import opened PyAst
  import opened WriteScanner

  /** `fewer` reports nothing that `more` does not, counting repetitions. */
  ghost predicate Covered(fewer: seq<Finding>, more: seq<Finding>) {
    multiset(fewer) <= multiset(more)
  }

  lemma {:induction false} StagingMonotone(e: Expr, s: set<string>, t: set<string>)
    requires s <= t && IsStagingExpr(e, s)
    ensures IsStagingExpr(e, t)
  {
    match e
    case Attribute(obj, _) => StagingMonotone(obj, s, t);
    case Div(left, _) => StagingMonotone(left, s, t);
    case Call(func, args, _, _) =>
      if CalleeName(func) !in STAGING_BINDERS { StagingMonotone(args[0], s, t); }
    case _ =>
  }

  lemma {:induction false} CallMonotone(call: Expr, s: set<string>, t: set<string>)
    requires call.Call? && s <= t
    ensures Covered(CallFindings(call, t), CallFindings(call, s))
  {
    if call.func.Attribute? && IsStagingExpr(call.func.obj, s) {
      StagingMonotone(call.func.obj, s, t);
    }
    var target := ArgOr(call.args, 0, call.keywords, "file");
    if target != [] && IsStagingExpr(target[0], s) {
      StagingMonotone(target[0], s, t);
    }
  }

  lemma {:induction false} ExprMonotone(e: Expr, s: set<string>, t: set<string>)
    requires s <= t
    ensures Covered(ExprFindings(e, t), ExprFindings(e, s))
    decreases e
  {
    match e
    case Attribute(obj, _) => ExprMonotone(obj, s, t);
    case Div(left, right) => ExprMonotone(left, s, t); ExprMonotone(right, s, t);
    case Call(func, args, keywords, _) =>
      CallMonotone(e, s, t);
      ExprMonotone(func, s, t);
      ExprsMonotone(args, s, t);
      KeywordsMonotone(keywords, s, t);
    case Compound(parts) => ExprsMonotone(parts, s, t);
    case _ =>
  }

  lemma {:induction false} ExprsMonotone(es: seq<Expr>, s: set<string>, t: set<string>)
    requires s <= t
    ensures Covered(ExprsFindings(es, t), ExprsFindings(es, s))
    decreases es
  {
    if es != [] {
      ExprMonotone(es[0], s, t);
      ExprsMonotone(es[1..], s, t);
    }
  }

  lemma {:induction false} KeywordsMonotone(ks: seq<Keyword>, s: set<string>, t: set<string>)
    requires s <= t
    ensures Covered(KeywordFindings(ks, t), KeywordFindings(ks, s))
    decreases ks
  {
    if ks != [] {
      ExprMonotone(ks[0].value, s, t);
      KeywordsMonotone(ks[1..], s, t);
    }
  }

  lemma {:induction false} TargetsMonotone(targets: seq<Target>, s: set<string>, t: set<string>, inS: bool, inT: bool)
    requires s <= t && (inS ==> inT)
    ensures BindTargets(s, targets, inS) <= BindTargets(t, targets, inT)
    decreases targets
  {
    if targets != [] {
      var names := BoundNames(targets[0]);
      TargetsMonotone(targets[1..], Rebound(s, names, inS), Rebound(t, names, inT), inS, inT);
    }
  }

  lemma {:induction false} ItemsMonotone(items: seq<WithItem>, s: set<string>, t: set<string>)
    requires s <= t
    ensures AfterItems(items, s) <= AfterItems(items, t)
    ensures Covered(ItemFindings(items, t), ItemFindings(items, s))
    decreases items
  {
    if items != [] {
      var names, binder := BoundNames(items[0].target), IsBinderCall(items[0].context);
      ExprMonotone(items[0].context, s, t);
      ItemsMonotone(items[1..], Rebound(s, names, binder), Rebound(t, names, binder));
    }
  }

  /** A larger entry set gives a larger exit set and no new finding, for every statement. */
  lemma {:induction false} Monotone(stmt: Stmt, s: set<string>, t: set<string>)
    requires s <= t
    ensures Exit(stmt, s) <= Exit(stmt, t)
    ensures Covered(Findings(stmt, t), Findings(stmt, s))
    decreases stmt
  {
    match stmt
    case ExprStmt(e) => ExprMonotone(e, s, t);
    case Return(e) => ExprMonotone(e, s, t);
    case Raise(e) => ExprMonotone(e, s, t);
    case Rebind(_, exprs) => ExprsMonotone(exprs, s, t);
    case Assign(targets, value) =>
      ExprMonotone(value, s, t);
      if IsStagingExpr(value, s) { StagingMonotone(value, s, t); }
      TargetsMonotone(targets, s, t, IsStagingExpr(value, s), IsStagingExpr(value, t));
    case With(items, body) =>
      ItemsMonotone(items, s, t);
      BlockMonotone(body, AfterItems(items, s), AfterItems(items, t));
    case If(test, body, orelse) =>
      ExprMonotone(test, s, t);
      BlockMonotone(body, s, t);
      BlockMonotone(orelse, s, t);
    case For(target, iter, body, orelse) =>
      var s1, t1 := s - BoundNames(target), t - BoundNames(target);
      ExprMonotone(iter, s, t);
      BlockMonotone(body, s1, t1);
      BlockMonotone(orelse, ExitB(body, s1), ExitB(body, t1));
    case While(test, body, orelse) =>
      ExprMonotone(test, s, t);
      BlockMonotone(body, s, t);
      BlockMonotone(orelse, ExitB(body, s), ExitB(body, t));
    case Try(body, handlers, orelse, final) =>
      var s1, t1 := ExitB(body, s), ExitB(body, t);
      BlockMonotone(body, s, t);
      HandlersMonotone(handlers, s1, t1);
      var s2, t2 := ExitH(handlers, s1), ExitH(handlers, t1);
      BlockMonotone(orelse, s2, t2);
      BlockMonotone(final, ExitB(orelse, s2), ExitB(orelse, t2));
    case _ =>
  }

  lemma {:induction false} BlockMonotone(block: seq<Stmt>, s: set<string>, t: set<string>)
    requires s <= t
    ensures ExitB(block, s) <= ExitB(block, t)
    ensures Covered(FindingsB(block, t), FindingsB(block, s))
    decreases block
  {
    if block != [] {
      Monotone(block[0], s, t);
      BlockMonotone(block[1..], Exit(block[0], s), Exit(block[0], t));
    }
  }

  lemma {:induction false} HandlersMonotone(handlers: seq<Handler>, s: set<string>, t: set<string>)
    requires s <= t
    ensures ExitH(handlers, s) <= ExitH(handlers, t)
    ensures Covered(FindingsH(handlers, t), FindingsH(handlers, s))
    decreases handlers
  {
    if handlers != [] {
      BlockMonotone(handlers[0].body, s, t);
      HandlersMonotone(handlers[1..], ExitB(handlers[0].body, s), ExitB(handlers[0].body, t));
    }
  }
}
