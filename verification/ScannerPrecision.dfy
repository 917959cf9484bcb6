/** The scanner raises no false alarm where its rules keep the names that are relied on: what it forgets after a
    statement is at most what the statement binds. */
module ScannerPrecision {
  import opened PyAst
  import opened WriteScanner
  import opened StagingFlow
  import opened StagingMonotonicity
  import opened PyLiterals
  import opened ScannerExact
  import opened ScannerSoundness
  import opened ScannerGaps
  import opened ScannerLimits
  import opened PyRuns
  import opened FlowSoundness
  import Larger = ScannerMonotonicity

  // ----- what a statement changes of the staged names

  lemma {:induction false} TargetsChange(targets: seq<Target>, s: set<string>, staged: bool)
    ensures s - BoundNamesOf(targets) <= BindTargets(s, targets, staged) <= s + BoundNamesOf(targets)
    decreases targets
  {
    if targets != [] { TargetsChange(targets[1..], Rebound(s, BoundNames(targets[0]), staged), staged); }
  }

  lemma {:induction false} ItemsChange(items: seq<WithItem>, s: set<string>)
    ensures s - ItemNames(items) <= AfterItems(items, s) <= s + ItemNames(items)
    decreases items
  {
    if items != [] {
      ItemsChange(items[1..], Rebound(s, BoundNames(items[0].target), IsBinderCall(items[0].context)));
    }
  }

  /** Names that a statement does not bind are staged after it exactly if they were before; those that a `with` or a
      `for` binds itself, or that its body has staged first, are not. */
  lemma {:induction false} ExitChange(stmt: Stmt, s: set<string>)
    ensures !stmt.Rebind? && !stmt.Def? && !stmt.Class? ==> s - Bound(stmt) <= Exit(stmt, s) <= s + Bound(stmt)
    ensures stmt.Rebind? || stmt.Def? || stmt.Class? ==> Exit(stmt, s) == s
    ensures stmt.With? ==> Exit(stmt, s) <= s - ItemNames(stmt.items)
    ensures stmt.For? ==> Exit(stmt, s) <= s - BoundNames(stmt.target)
    decreases stmt
  {
    match stmt
    case Assign(targets, value) => TargetsChange(targets, s, IsStagingExpr(value, s));
    case With(items, body) =>
      ItemsChange(items, s);
      BlockChange(body, AfterItems(items, s));
    case If(_, body, orelse) =>
      BlockChange(body, s);
      BlockChange(orelse, s);
    case For(target, _, body, orelse) =>
      BlockChange(body, s - BoundNames(target));
      BlockChange(orelse, ExitB(body, s - BoundNames(target)));
    case While(_, body, orelse) =>
      BlockChange(body, s);
      BlockChange(orelse, ExitB(body, s));
    case Try(body, handlers, orelse, final) =>
      BlockChange(body, s);
      HandlersChange(handlers, ExitB(body, s));
      var s2 := ExitH(handlers, ExitB(body, s));
      BlockChange(orelse, s2);
      BlockChange(final, ExitB(orelse, s2));
    case _ =>
  }

  lemma {:induction false} BlockChange(block: seq<Stmt>, s: set<string>)
    ensures s - BoundB(block) <= ExitB(block, s) <= s + BoundB(block)
    decreases block
  {
    if block != [] {
      ExitChange(block[0], s);
      BlockChange(block[1..], Exit(block[0], s));
    }
  }

  lemma {:induction false} HandlersChange(handlers: seq<Handler>, s: set<string>)
    ensures s - BoundH(handlers) <= ExitH(handlers, s) <= s + BoundH(handlers)
    decreases handlers
  {
    if handlers != [] {
      BlockChange(handlers[0].body, s);
      HandlersChange(handlers[1..], ExitB(handlers[0].body, s));
    }
  }

  // ----- texts in which nothing is relied on that the scanner's rules forget

  predicate ClearStmt(stmt: Stmt) {
    match stmt
    case ExprStmt(e) => Clear(e)
    case Return(e) => Clear(e)
    case Raise(e) => Clear(e)
    case Assign(_, value) => Clear(value)
    case Rebind(_, exprs) => ClearAll(exprs)
    case With(items, body) => ClearItems(items) && ClearB(body)
    case If(test, body, orelse) => Clear(test) && ClearB(body) && ClearB(orelse)
    case For(_, iter, body, orelse) => Clear(iter) && ClearB(body) && ClearB(orelse)
    case While(test, body, orelse) => Clear(test) && ClearB(body) && ClearB(orelse)
    case Try(body, handlers, orelse, final) =>
      ClearB(body) && ClearH(handlers) && ClearB(orelse) && ClearB(final)
    case Def(_, defaults, body, decorators) => ClearAll(defaults) && ClearB(body) && ClearAll(decorators)
    case Class(_, bases, body, decorators) => ClearAll(bases) && ClearB(body) && ClearAll(decorators)
    case _ => true
  }

  predicate ClearB(block: seq<Stmt>) {
    block == [] || (ClearStmt(block[0]) && ClearB(block[1..]))
  }

  predicate ClearH(handlers: seq<Handler>) {
    handlers == [] || (ClearB(handlers[0].body) && ClearH(handlers[1..]))
  }

  /** The names that are private where a block ends, or as many as it leaves alone if it never gets there. */
  function Surely(end: Must, s: set<string>, bound: set<string>): set<string> {
    if end.Names? then end.s else s - bound
  }

  function SurelyB(ever: bool, block: seq<Stmt>, s: set<string>): set<string> {
    Surely(FollowB(ever, block, s).next, s, BoundB(block))
  }

  predicate Within(m: Must, s: set<string>) {
    m.Names? ==> m.s <= s
  }

  /** With `s` private before, and as far as the reference sees:
      - no code is unreachable;
      - what is private after a `with` was staged before it and is no name of its items;
      - what is private after a `for` was staged before it and is none of its targets;
      - a branch that does not end binds no name that is private after its statement;
      - what is private wherever a `try` body may be interrupted is private at its end, and every handler keeps that;
      - decorators, defaults and class bodies rely on no name from around them. */
  predicate Direct(ever: bool, stmt: Stmt, s: set<string>) {
    match stmt
    case With(items, body) =>
      var inside := AfterEnter(true, items, s);
      && DirectB(ever, body, inside)
      && Within(Follow(ever, stmt, s).next, (s - ItemNames(items)) * SurelyB(ever, body, inside))
    case If(_, body, orelse) =>
      && DirectB(ever, body, s) && DirectB(ever, orelse, s)
      && Within(Follow(ever, stmt, s).next, SurelyB(ever, body, s) * SurelyB(ever, orelse, s))
    case For(target, _, body, orelse) =>
      var names := BoundNames(target);
      var head := LoopNames(ever, names, body, s);
      && DirectB(ever, body, head - names) && DirectB(ever, orelse, head)
      && head <= SurelyB(ever, body, head - names)
      && Within(Follow(ever, stmt, s).next, (s - names) * SurelyB(ever, orelse, head))
    case While(_, body, orelse) =>
      var head := LoopNames(ever, {}, body, s);
      && DirectB(ever, body, head) && DirectB(ever, orelse, head)
      && head <= SurelyB(ever, body, head)
      && Within(Follow(ever, stmt, s).next, SurelyB(ever, orelse, head))
    case Try(body, handlers, orelse, final) =>
      var f, mid := FollowB(ever, body, s), SurelyB(ever, body, s);
      && DirectB(ever, body, s)
      && (f.raised.Names? || handlers == []) && (handlers != [] ==> Within(f.raised, mid))
      && DirectH(ever, handlers, mid)
      && (f.next.Names? || orelse == []) && DirectB(ever, orelse, mid)
      && var before := BeforeFinal(Pending(ever, stmt, s));
         && (before.Names? || final == [])
         && Within(before, SurelyB(ever, orelse, mid)) && (before.Names? ==> DirectB(ever, final, before.s))
    case Def(_, defaults, body, decorators) =>
      QuietExprs(defaults, {}) && DirectB(ever, body, {}) && QuietExprs(decorators, SurelyB(ever, body, {}))
    case Class(_, bases, body, decorators) =>
      && QuietExprs(bases, {}) && QuietB(ever, body, {}) && DirectB(ever, body, {})
      && QuietExprs(decorators, SurelyB(ever, body, {}))
    case _ => true
  }

  /** One of the ways into a `finally` block. */
  function BeforeFinal(pending: Flow): Must {
    if pending.next.Names? then pending.next else pending.raised
  }

  predicate DirectB(ever: bool, block: seq<Stmt>, s: set<string>) {
    block == []
    || (&& Direct(ever, block[0], s)
        && var next := Follow(ever, block[0], s).next;
           if next.Names? then DirectB(ever, block[1..], next.s) else block[1..] == [])
  }

  predicate DirectH(ever: bool, handlers: seq<Handler>, s: set<string>) {
    handlers == []
    || (&& DirectB(ever, handlers[0].body, s) && s <= SurelyB(ever, handlers[0].body, s)
        && DirectH(ever, handlers[1..], s))
  }

  // ----- no false alarm

  lemma {:induction false} Fewer(block: seq<Stmt>, s: set<string>, t: set<string>)
    requires s <= t && FindingsB(block, s) == []
    ensures FindingsB(block, t) == [] && ExitB(block, s) <= ExitB(block, t)
  {
    Larger.BlockMonotone(block, s, t);
    assert multiset(FindingsB(block, t)) <= multiset([]);
    NoneLeft(FindingsB(block, t));
  }

  lemma {:induction false} NoneLeft(findings: seq<Finding>)
    requires multiset(findings) <= multiset([])
    ensures findings == []
  {
    assert |multiset(findings)| == |findings|;
  }

  lemma {:induction false} FewerExprs(es: seq<Expr>, s: set<string>, t: set<string>)
    requires s <= t && ClearAll(es) && QuietExprs(es, s)
    ensures ExprsFindings(es, t) == []
  {
    QuietMoreAll(es, s, t);
    ClearSameAll(es, t);
  }

  /** In clear and direct texts the scanner is silent where the reference is quiet, and goes on trusting what the
      reference says is private. */
  lemma {:induction false} QuietSilent(ever: bool, stmt: Stmt, s: set<string>)
    requires ClearStmt(stmt) && Direct(ever, stmt, s) && Quiet(ever, stmt, s)
    ensures Findings(stmt, s) == [] && Within(Follow(ever, stmt, s).next, Exit(stmt, s))
    decreases stmt, 1
  {
    hide QuietB, DirectB, FollowB, ExitB, ExitH, FindingsB, FindingsH, LoopNames, WithFlow, LoopFlow, FinalFlow,
         Pending, ClearB, ClearH, QuietFinal, QuietH, DirectH, SurelyB;
    match stmt
    case ExprStmt(e) => ClearSame(e, s);
    case Return(e) => ClearSame(e, s);
    case Raise(e) => ClearSame(e, s);
    case Assign(_, value) => ClearSame(value, s);
    case Rebind(_, exprs) => ClearSameAll(exprs, s);
    case With(_, _) => WithSilent(ever, stmt, s);
    case If(test, body, orelse) =>
      ClearSame(test, s);
      BlockSilent(ever, body, s);
      BlockSilent(ever, orelse, s);
    case For(_, _, _, _) => ForSilent(ever, stmt, s);
    case While(_, _, _) => WhileSilent(ever, stmt, s);
    case Try(_, _, _, _) => TrySilent(ever, stmt, s);
    case Def(_, defaults, body, decorators) =>
      ClearSameAll(defaults, {});
      BlockSilent(ever, body, {});
      FewerExprs(decorators, SurelyB(ever, body, {}), ExitB(body, {}));
    case Class(_, bases, body, decorators) =>
      ClearSameAll(bases, {});
      BlockSilent(ever, body, {});
      FewerExprs(decorators, SurelyB(ever, body, {}), ExitB(body, {}));
    case _ =>
  }

  lemma {:induction false} WithSilent(ever: bool, stmt: Stmt, s: set<string>)
    requires stmt.With? && ClearStmt(stmt) && Direct(ever, stmt, s) && Quiet(ever, stmt, s)
    ensures Findings(stmt, s) == [] && Within(Follow(ever, stmt, s).next, Exit(stmt, s))
    decreases stmt, 0
  {
    hide QuietB, DirectB, FollowB, ExitB, FindingsB, WithFlow, ClearB, SurelyB;
    InsideItems(stmt.items, s);
    ClearSameItems(stmt.items, s);
    BlockSilent(ever, stmt.body, AfterItems(stmt.items, s));
  }

  lemma {:induction false} ForSilent(ever: bool, stmt: Stmt, s: set<string>)
    requires stmt.For? && ClearStmt(stmt) && Direct(ever, stmt, s) && Quiet(ever, stmt, s)
    ensures Findings(stmt, s) == [] && Within(Follow(ever, stmt, s).next, Exit(stmt, s))
    decreases stmt, 0
  {
    hide QuietB, DirectB, FollowB, ExitB, FindingsB, LoopNames, LoopFlow, ClearB, SurelyB;
    var names := BoundNames(stmt.target);
    var head := LoopNames(ever, names, stmt.body, s);
    ClearSame(stmt.iter, s);
    BlockSilent(ever, stmt.body, head - names);
    BlockSilent(ever, stmt.orelse, head);
    LoopSilent(stmt.body, stmt.orelse, head, head - names, s - names);
  }

  lemma {:induction false} WhileSilent(ever: bool, stmt: Stmt, s: set<string>)
    requires stmt.While? && ClearStmt(stmt) && Direct(ever, stmt, s) && Quiet(ever, stmt, s)
    ensures Findings(stmt, s) == [] && Within(Follow(ever, stmt, s).next, Exit(stmt, s))
    decreases stmt, 0
  {
    hide QuietB, DirectB, FollowB, ExitB, FindingsB, LoopNames, LoopFlow, ClearB, SurelyB;
    var head := LoopNames(ever, {}, stmt.body, s);
    QuietMore(stmt.test, head, s);
    ClearSame(stmt.test, s);
    BlockSilent(ever, stmt.body, head);
    BlockSilent(ever, stmt.orelse, head);
    LoopSilent(stmt.body, stmt.orelse, head, head, s);
  }

  /** A loop body, read by the scanner with `t`, and the `else` branch after it. */
  lemma {:induction false} LoopSilent(body: seq<Stmt>, orelse: seq<Stmt>, head: set<string>, s: set<string>,
                                      t: set<string>)
    requires s <= t && FindingsB(body, s) == [] && head <= ExitB(body, s) && FindingsB(orelse, head) == []
    ensures FindingsB(body, t) == [] && FindingsB(orelse, ExitB(body, t)) == []
    ensures ExitB(orelse, head) <= ExitB(orelse, ExitB(body, t))
  {
    Fewer(body, s, t);
    Fewer(orelse, head, ExitB(body, t));
  }

  lemma {:induction false} TrySilent(ever: bool, stmt: Stmt, s: set<string>)
    requires stmt.Try? && ClearStmt(stmt) && Direct(ever, stmt, s) && Quiet(ever, stmt, s)
    ensures Findings(stmt, s) == [] && Within(Follow(ever, stmt, s).next, Exit(stmt, s))
    decreases stmt, 0
  {
    hide QuietB, DirectB, FollowB, ExitB, ExitH, FindingsB, FindingsH, Pending, ClearB, ClearH, QuietH, DirectH;
    var body, handlers, orelse, final := stmt.body, stmt.handlers, stmt.orelse, stmt.final;
    var f, mid := FollowB(ever, body, s), SurelyB(ever, body, s);
    BlockSilent(ever, body, s);
    var s1 := ExitB(body, s);
    if handlers != [] { QuietHandlersMonotone(ever, handlers, f.raised.s, mid); } else { NoHandlers(ever, mid); }
    HandlersSilent(ever, handlers, mid, s1);
    var s2 := ExitH(handlers, s1);
    if orelse == [] { NothingElse(ever, mid); }
    BlockSilent(ever, orelse, mid);
    Fewer(orelse, mid, s2);
    var before, s3 := BeforeFinal(Pending(ever, stmt, s)), ExitB(orelse, s2);
    if before.Names? {
      FinalQuiet(ever, final, Pending(ever, stmt, s));
      BlockSilent(ever, final, before.s);
      Fewer(final, before.s, s3);
    } else {
      NoBlock(s3);
    }
    hide SurelyB;
    FinalNext(ever, final, Pending(ever, stmt, s));
  }

  lemma {:induction false} NoBlock(s: set<string>)
    ensures FindingsB([], s) == [] && ExitB([], s) == s
  {
  }

  lemma {:induction false} NoHandlers(ever: bool, s: set<string>)
    ensures QuietH(ever, [], s)
  {
  }

  lemma {:induction false} FinalQuiet(ever: bool, final: seq<Stmt>, pending: Flow)
    requires QuietFinal(ever, final, pending) && BeforeFinal(pending).Names?
    ensures QuietB(ever, final, BeforeFinal(pending).s)
  {
  }

  lemma {:induction false} FinalNext(ever: bool, final: seq<Stmt>, pending: Flow)
    ensures FinalFlow(ever, final, pending).next ==
      if pending.next.Names? then FollowB(ever, final, pending.next.s).next else Never
  {
  }

  lemma {:induction false} HandlersSilent(ever: bool, handlers: seq<Handler>, s: set<string>, t: set<string>)
    requires ClearH(handlers) && DirectH(ever, handlers, s) && QuietH(ever, handlers, s) && s <= t
    ensures FindingsH(handlers, t) == [] && s <= ExitH(handlers, t)
    decreases handlers
  {
    hide QuietB, DirectB, ExitB, FindingsB, ClearB, SurelyB;
    if handlers != [] {
      BlockSilent(ever, handlers[0].body, s);
      Fewer(handlers[0].body, s, t);
      HandlersSilent(ever, handlers[1..], s, ExitB(handlers[0].body, t));
    }
  }

  lemma {:induction false} BlockSilent(ever: bool, block: seq<Stmt>, s: set<string>)
    requires ClearB(block) && DirectB(ever, block, s) && QuietB(ever, block, s)
    ensures FindingsB(block, s) == [] && SurelyB(ever, block, s) <= ExitB(block, s)
    decreases block, 0
  {
    hide Quiet, Direct, Follow, Exit, Findings, ClearStmt, Bound;
    if block != [] {
      QuietSilent(ever, block[0], s);
      var next := Follow(ever, block[0], s).next;
      if next.Names? {
        BlockSilent(ever, block[1..], next.s);
        Fewer(block[1..], next.s, Exit(block[0], s));
      }
    }
    BlockChange(block, s);
  }

  /** A clear and direct program that is safe on every run is reported nothing about. */
  lemma {:induction false} NoFalseAlarm(ever: bool, program: seq<Stmt>, n: nat)
    requires FairB(program, n) && ClearB(program) && DirectB(ever, program, {}) && Safe(ever, program)
    ensures FindingsB(program, {}) == []
  {
    ProgramExact(ever, program, n);
    BlockSilent(ever, program, {});
  }

  /** Where the scanner is sound as well, its verdict on such a program is the truth about it. */
  lemma {:induction false} ClearExact(ever: bool, program: seq<Stmt>, n: nat)
    requires FairB(program, n) && ClearB(program) && DirectB(ever, program, {}) && TrackedB(ever, program, {})
    ensures FindingsB(program, {}) == [] <==> Safe(ever, program)
  {
    if Safe(ever, program) { NoFalseAlarm(ever, program, n); }
    if FindingsB(program, {}) == [] {
      forall o ensures Marks(ever, Run(program, o)) == {} { SilenceMeansStaged(ever, program, o); }
    }
  }

  // ----- a false alarm

  /** The body of a `with` makes a private place of its own and the scanner forgets it: the write behind is safe on
      every run and is reported. */
  lemma {:induction false} WithAlarm(x: string, d: string, stage: Expr, write: Expr)
    requires IsStage(stage) && IsWrite(write, x) && x != d
    ensures var program := [With([WithItem(stage, NameTarget(d))], [Set(x, stage)]), ExprStmt(write)];
      FindingsB(program, {}) != [] && Safe(false, program)
  {
    var n, none: set<string> := 1, {};
    var items, body, last := [WithItem(stage, NameTarget(d))], [Set(x, stage)], ExprStmt(write);
    var block := With(items, body);
    var program := [block, last];
    WithStages(x, d, stage, n);
    Writes(x, write, none, n);
    Writes(x, write, {x}, n);
    One(last, none, n);
    One(last, {x}, n);
    TwoStmts(block, last, none, n);
    hide Follow, Quiet, Findings, Exit, FairStmt, FindingsB, QuietB, FairB;
    assert FindingsB(program, none) != [];
    ProgramExact(false, program, n);
  }

  lemma {:induction false} TwoStmts(a: Stmt, b: Stmt, s: set<string>, n: nat)
    requires Follow(false, a, s).next.Names?
    ensures FindingsB([a, b], s) == Findings(a, s) + FindingsB([b], Exit(a, s))
    ensures QuietB(false, [a, b], s) <==> Quiet(false, a, s) && QuietB(false, [b], Follow(false, a, s).next.s)
    ensures FairB([a, b], n) <==> FairStmt(a, n) && FairB([b], n)
  {
    hide Follow, Quiet, Findings, Exit, FairStmt;
    assert [a, b][0] == a && [a, b][1..] == [b];
  }

  lemma {:induction false} WithStages(x: string, d: string, stage: Expr, n: nat)
    requires IsStage(stage) && x != d
    ensures var block := With([WithItem(stage, NameTarget(d))], [Set(x, stage)]);
      && FairStmt(block, n) && Exit(block, {}) == {} && Findings(block, {}) == []
      && Quiet(false, block, {}) && Follow(false, block, {}).next == Names({x})
  {
    var none: set<string> := {};
    var items, body := [WithItem(stage, NameTarget(d))], [Set(x, stage)];
    Stages(d, stage, none, n);
    OneItem(items[0], none, n);
    assert items[0].target == NameTarget(d) && BoundNames(items[0].target) == {d} && items[1..] == [];
    assert !MaySwallow(items);
    NoneSwallowed(false, items, none);
    Stages(x, stage, {d}, n);
    Stages(x, stage, none, n);
    One(body[0], {d}, n);
    One(body[0], none, n);
    hide EnterSwallowed, EnterRaised, IsStage;
    assert EnterOne(true, items[0], none) == {d} && EnterOne(false, items[0], none) == none;
    assert FollowB(false, body, none).next == Names({x});
  }
}
