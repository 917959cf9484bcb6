/** Where the scanner's silence does not mean safety: for each construct that it does not follow the exact condition, in
    terms of its own exit sets and findings. */
module ScannerLimits {
  import opened PyAst
  import opened WriteScanner
  import opened PyRuns
  import opened StagingFlow
  import opened PyLiterals
  import opened ScannerExact
  import opened ScannerSoundness
  import opened ScannerGaps

  // ----- texts on which scanner and reference see the same writes

  /** A call that the scanner reports exactly if what it may truncate is not staged: no `.open` that could be another
      function, and no `open` in a truncating mode without a target. */
  predicate ClearCall(call: Expr)
    requires call.Call?
  {
    && PlainOpen(call)
    && ((call.func.Name? || (call.func.Attribute? && (call.func.attr == "fdopen" || QualifiedOpen(call.func))))
        && CalleeName(call.func) in {"open", "fdopen"}
        && IsTruncatingMode(ArgOr(call.args, 1, call.keywords, "mode")) ==>
          OpenTarget(call, {"file"}) != [])
  }

  predicate Clear(e: Expr) {
    match e
    case Attribute(obj, _) => Clear(obj)
    case Div(left, right) => Clear(left) && Clear(right)
    case Call(func, args, keywords, _) => ClearCall(e) && Clear(func) && ClearAll(args) && ClearKeywords(keywords)
    case Compound(parts) => ClearAll(parts)
    case _ => true
  }

  predicate ClearAll(es: seq<Expr>) {
    es == [] || (Clear(es[0]) && ClearAll(es[1..]))
  }

  predicate ClearKeywords(ks: seq<Keyword>) {
    ks == [] || (Clear(ks[0].value) && ClearKeywords(ks[1..]))
  }

  predicate ClearItems(items: seq<WithItem>) {
    items == [] || (Clear(items[0].context) && ClearItems(items[1..]))
  }

  lemma {:induction false} ClearCallSame(call: Expr, s: set<string>)
    requires call.Call? && ClearCall(call)
    ensures CallFindings(call, s) == [] <==> QuietCall(call, s)
  {
    NamedFile(call.keywords);
    hide MayBeOther, IsTruncatingMode, IsStagingExpr, KeywordArg, NamedArg;
  }

  lemma {:induction false} ClearSame(e: Expr, s: set<string>)
    requires Clear(e)
    ensures ExprFindings(e, s) == [] <==> QuietExpr(e, s)
    decreases e
  {
    match e
    case Attribute(obj, _) => ClearSame(obj, s);
    case Div(left, right) =>
      ClearSame(left, s);
      ClearSame(right, s);
    case Call(func, args, keywords, _) =>
      ClearCallSame(e, s);
      ClearSame(func, s);
      ClearSameAll(args, s);
      ClearSameKeywords(keywords, s);
    case Compound(parts) => ClearSameAll(parts, s);
    case _ =>
  }

  lemma {:induction false} ClearSameAll(es: seq<Expr>, s: set<string>)
    requires ClearAll(es)
    ensures ExprsFindings(es, s) == [] <==> QuietExprs(es, s)
    decreases es
  {
    if es != [] {
      ClearSame(es[0], s);
      ClearSameAll(es[1..], s);
    }
  }

  lemma {:induction false} ClearSameKeywords(ks: seq<Keyword>, s: set<string>)
    requires ClearKeywords(ks)
    ensures KeywordFindings(ks, s) == [] <==> QuietKeywords(ks, s)
    decreases ks
  {
    if ks != [] {
      ClearSame(ks[0].value, s);
      ClearSameKeywords(ks[1..], s);
    }
  }

  lemma {:induction false} ClearSameItems(items: seq<WithItem>, s: set<string>)
    requires ClearItems(items)
    ensures ItemFindings(items, s) == [] <==> QuietItems(items, s)
    decreases items
  {
    if items != [] {
      ClearSame(items[0].context, s);
      ClearSameItems(items[1..], EnterOne(true, items[0], s));
    }
  }

  // ----- bodies without jumps and scopes

  /** Expressions, assignments and branches. */
  predicate Local(stmt: Stmt) {
    match stmt
    case AnnOnly => true
    case ExprStmt(e) => Clear(e)
    case Assign(_, value) => Clear(value)
    case If(test, body, orelse) => Clear(test) && LocalB(body) && LocalB(orelse)
    case _ => false
  }

  predicate LocalB(block: seq<Stmt>) {
    block == [] || (Local(block[0]) && LocalB(block[1..]))
  }

  /** Such a statement can only end normally or raise. */
  predicate FallsThrough(f: Flow, exit: set<string>) {
    f.next == Names(exit) && f.returned.Never? && f.broke.Never? && f.continued.Never?
  }

  lemma {:induction false} LocalSame(ever: bool, stmt: Stmt, s: set<string>)
    requires Local(stmt)
    ensures FallsThrough(Follow(ever, stmt, s), Exit(stmt, s))
    ensures Findings(stmt, s) == [] <==> Quiet(ever, stmt, s)
    decreases stmt, 1
  {
    match stmt
    case ExprStmt(e) => ClearSame(e, s);
    case Assign(_, value) => ClearSame(value, s);
    case If(test, body, orelse) =>
      ClearSame(test, s);
      LocalBlockSame(ever, body, s);
      LocalBlockSame(ever, orelse, s);
    case _ =>
  }

  lemma {:induction false} LocalBlockSame(ever: bool, block: seq<Stmt>, s: set<string>)
    requires LocalB(block)
    ensures FallsThrough(FollowB(ever, block, s), ExitB(block, s))
    ensures FindingsB(block, s) == [] <==> QuietB(ever, block, s)
    decreases block, 0
  {
    if block != [] {
      LocalSame(ever, block[0], s);
      LocalBlockSame(ever, block[1..], Exit(block[0], s));
    }
  }

  // ----- loops

  /** The largest set of entry names that the scanner's own reading of the body keeps in every round. */
  function Fix(targets: set<string>, body: seq<Stmt>, s: set<string>): (r: set<string>)
    ensures r <= s
    decreases |s|
  {
    var kept := s * ExitB(body, s - targets);
    if kept == s then s
    else
      Shrinks(s, kept);
      Fix(targets, body, kept)
  }

  lemma {:induction false} FixSame(ever: bool, targets: set<string>, body: seq<Stmt>, s: set<string>)
    requires LocalB(body)
    ensures LoopNames(ever, targets, body, s) == Fix(targets, body, s)
    decreases |s|
  {
    LocalBlockSame(ever, body, s - targets);
    var kept := s * ExitB(body, s - targets);
    assert Kept(s, FollowB(ever, body, s - targets)) == kept;
    if kept != s {
      Shrinks(s, kept);
      FixSame(ever, targets, body, kept);
    }
  }

  /** A `for` is handled right if and only if its body has no findings when read with the names that every round keeps,
      and the scanner trusts no other name afterwards. */
  lemma {:induction false} ForExact(ever: bool, target: Target, iter: Expr, body: seq<Stmt>, staged: set<string>,
                                    n: nat)
    requires LocalB(body) && Clear(iter) && FairStmt(For(target, iter, body, []), n)
    ensures var loop := For(target, iter, body, []);
      var head := Fix(BoundNames(target), body, staged);
      Handled(ever, loop, staged) <==>
        && ExprFindings(iter, staged) == [] && FindingsB(body, head - BoundNames(target)) == []
        && Exit(loop, staged) <= head
  {
    hide Handled, Exit, LoopNames, FollowB, Fix;
    var loop := For(target, iter, body, []);
    var head := Fix(BoundNames(target), body, staged);
    StatementExact(ever, loop, staged, n);
    FixSame(ever, BoundNames(target), body, staged);
    LocalBlockSame(ever, body, head - BoundNames(target));
    ClearSame(iter, staged);
    NothingElse(ever, head);
    assert Follow(ever, loop, staged).next == Names(head);
    assert Quiet(ever, loop, staged) <==> QuietExpr(iter, staged) && QuietB(ever, body, head - BoundNames(target));
  }

  /** A `while` likewise; the test is read in every round too. */
  lemma {:induction false} WhileExact(ever: bool, test: Expr, body: seq<Stmt>, staged: set<string>, n: nat)
    requires LocalB(body) && Clear(test) && FairStmt(While(test, body, []), n)
    ensures var head := Fix({}, body, staged);
      Handled(ever, While(test, body, []), staged) <==>
        ExprFindings(test, head) == [] && FindingsB(body, head) == [] && ExitB(body, staged) <= head
  {
    hide Handled, LoopNames, FollowB, Fix;
    var loop := While(test, body, []);
    var head := Fix({}, body, staged);
    StatementExact(ever, loop, staged, n);
    FixSame(ever, {}, body, staged);
    LocalBlockSame(ever, body, head);
    ClearSame(test, head);
    NothingElse(ever, head);
    assert Follow(ever, loop, staged).next == Names(head);
    assert Quiet(ever, loop, staged) <==> QuietExpr(test, head) && QuietB(ever, body, head);
    assert Exit(loop, staged) == ExitB(body, staged);
  }

  // ----- `with`

  lemma {:induction false} OutsideItems(items: seq<WithItem>, s: set<string>)
    ensures AfterEnter(false, items, s) == s - ItemNames(items)
    decreases items
  {
    if items != [] { OutsideItems(items[1..], EnterOne(false, items[0], s)); }
  }

  /** A `with` whose items are all staging binders is handled right without findings as far as places ever made count;
      as far as existing places count, if and only if the names trusted afterwards are also staged when the body is read
      without the names of the items, whose places have ended. */
  lemma {:induction false} WithExact(ever: bool, items: seq<WithItem>, body: seq<Stmt>, staged: set<string>, n: nat)
    requires LocalB(body) && ClearItems(items) && !MaySwallow(items) && FairStmt(With(items, body), n)
    ensures var block := With(items, body);
      Handled(ever, block, staged) <==>
        Findings(block, staged) == [] && (ever || Exit(block, staged) <= ExitB(body, staged - ItemNames(items)))
  {
    hide Handled;
    var block := With(items, body);
    StatementExact(ever, block, staged, n);
    InsideItems(items, staged);
    OutsideItems(items, staged);
    ClearSameItems(items, staged);
    LocalBlockSame(ever, body, AfterItems(items, staged));
    LocalBlockSame(ever, body, AfterEnter(ever, items, staged));
    NoneSwallowed(ever, items, staged);
    assert Follow(ever, block, staged).next == Names(ExitB(body, AfterEnter(ever, items, staged)));
  }

  // ----- `try`

  /** The names that are staged wherever an exception may leave a statement. */
  function Interrupted(stmt: Stmt, s: set<string>): (r: set<string>)
    ensures r <= s
  {
    match stmt
    case If(_, body, orelse) => s * InterruptedB(body, s) * InterruptedB(orelse, s)
    case _ => s
  }

  function InterruptedB(block: seq<Stmt>, s: set<string>): (r: set<string>)
    ensures r <= s
  {
    if block == [] then s
    else if |block| == 1 then Interrupted(block[0], s)
    else Interrupted(block[0], s) * InterruptedB(block[1..], Exit(block[0], s))
  }

  lemma {:induction false} LocalRaised(ever: bool, stmt: Stmt, s: set<string>)
    requires Local(stmt)
    ensures Follow(ever, stmt, s).raised == Names(Interrupted(stmt, s))
    decreases stmt, 1
  {
    if stmt.If? {
      LocalBlockRaised(ever, stmt.body, s);
      LocalBlockRaised(ever, stmt.orelse, s);
    }
  }

  lemma {:induction false} LocalBlockRaised(ever: bool, block: seq<Stmt>, s: set<string>)
    requires LocalB(block)
    ensures FollowB(ever, block, s).raised == if block == [] then Never else Names(InterruptedB(block, s))
    decreases block, 0
  {
    if block != [] {
      LocalRaised(ever, block[0], s);
      LocalSame(ever, block[0], s);
      LocalBlockRaised(ever, block[1..], Exit(block[0], s));
    }
  }

  predicate LocalH(handlers: seq<Handler>) {
    forall k | 0 <= k < |handlers| :: LocalB(handlers[k].body)
  }

  /** Every handler, entered with `s`, has no findings and goes on with `exit`. */
  predicate HandlersKeep(handlers: seq<Handler>, s: set<string>, exit: set<string>) {
    forall k | 0 <= k < |handlers| ::
      FindingsB(handlers[k].body, s) == [] && exit <= ExitB(handlers[k].body, s)
  }

  lemma {:induction false} HandlersSame(ever: bool, handlers: seq<Handler>, s: set<string>, exit: set<string>)
    requires LocalH(handlers)
    ensures var f := FollowH(ever, handlers, s);
      HandlersKeep(handlers, s, exit) <==>
        QuietH(ever, handlers, s) && (f.next.Names? ==> exit <= f.next.s)
    decreases handlers
  {
    if handlers != [] {
      var rest := handlers[1..];
      forall k | 0 <= k < |rest| ensures LocalB(rest[k].body) { assert rest[k] == handlers[k + 1]; }
      HandlersSame(ever, rest, s, exit);
      LocalBlockSame(ever, handlers[0].body, s);
      assert HandlersKeep(handlers, s, exit) <==>
          FindingsB(handlers[0].body, s) == [] && exit <= ExitB(handlers[0].body, s) && HandlersKeep(rest, s, exit) by {
        assert forall k | 1 <= k < |handlers| :: handlers[k] == rest[k - 1];
        assert forall k | 0 <= k < |rest| :: rest[k] == handlers[k + 1];
      }
    }
  }

  /** A `try` is handled right if and only if its body and `else` branch have no findings, read one after the other, and
      neither has any handler, read with the names that are staged wherever the body may be interrupted, and all
      of them keep the names that the scanner goes on trusting. */
  lemma {:induction false} TryExact(ever: bool, body: seq<Stmt>, handlers: seq<Handler>, orelse: seq<Stmt>,
                                    staged: set<string>, n: nat)
    requires body != [] && LocalB(body) && LocalH(handlers) && LocalB(orelse)
    requires FairStmt(Try(body, handlers, orelse, []), n)
    ensures var attempt := Try(body, handlers, orelse, []);
      var exit := Exit(attempt, staged);
      Handled(ever, attempt, staged) <==>
        && FindingsB(body, staged) == [] && FindingsB(orelse, ExitB(body, staged)) == []
        && exit <= ExitB(orelse, ExitB(body, staged))
        && HandlersKeep(handlers, InterruptedB(body, staged), exit)
  {
    hide Handled, FollowB, FollowH, QuietB, QuietH, FindingsB, ExitB, ExitH, HandlersKeep;
    var attempt := Try(body, handlers, orelse, []);
    StatementExact(ever, attempt, staged, n);
    LocalBlockSame(ever, body, staged);
    LocalBlockRaised(ever, body, staged);
    LocalBlockSame(ever, orelse, ExitB(body, staged));
    HandlersSame(ever, handlers, InterruptedB(body, staged), Exit(attempt, staged));
    NoFinal(ever, Pending(ever, attempt, staged));
    var h, g := FollowH(ever, handlers, InterruptedB(body, staged)), FollowB(ever, orelse, ExitB(body, staged));
    assert FollowFrom(ever, orelse, Names(ExitB(body, staged))) == g;
    assert Pending(ever, attempt, staged).next == Meet(h.next, g.next);
    assert Follow(ever, attempt, staged).next == Meet(h.next, g.next);
    assert Quiet(ever, attempt, staged) <==>
        && QuietB(ever, body, staged) && QuietH(ever, handlers, InterruptedB(body, staged))
        && QuietB(ever, orelse, ExitB(body, staged));
  }

  lemma {:induction false} NoFinal(ever: bool, pending: Flow)
    ensures FinalFlow(ever, [], pending) == pending && QuietFinal(ever, [], pending)
  {
  }

  // ----- statements that bind names otherwise

  /** A statement that rebinds names behind the scanner's back (an augmented assignment, an import, a `del`) is handled
      right if and only if none of the names is staged. */
  lemma {:induction false} RebindExact(ever: bool, names: set<string>, staged: set<string>)
    ensures Handled(ever, Rebind(names, []), staged) <==> names !! staged
  {
    hide Handled;
    StatementExact(ever, Rebind(names, []), staged, 0);
  }

  /** A definition is handled right if and only if it binds no staged name and neither its decorators and defaults, read
      with the names around it, nor its body have findings. */
  lemma {:induction false} DefExact(ever: bool, name: string, defaults: seq<Expr>, body: seq<Stmt>,
                                    decorators: seq<Expr>, staged: set<string>, n: nat)
    requires LocalB(body) && ClearAll(defaults) && ClearAll(decorators)
    requires FairStmt(Def(name, defaults, body, decorators), n)
    ensures Handled(ever, Def(name, defaults, body, decorators), staged) <==>
      && name !in staged && ExprsFindings(decorators, staged) == [] && ExprsFindings(defaults, staged) == []
      && FindingsB(body, {}) == []
  {
    hide Handled;
    StatementExact(ever, Def(name, defaults, body, decorators), staged, n);
    LocalBlockSame(ever, body, {});
    ClearSameAll(decorators, staged);
    ClearSameAll(defaults, staged);
  }
}
