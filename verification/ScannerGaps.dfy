/** Families of texts about which the scanner is silent although some run truncates a published path, one for each
    construct that it does not follow.  Each is found unsafe by the reference, which is exact. */
module ScannerGaps {
  import opened PyAst
  import opened WriteScanner
  import opened PyRuns
  import opened StagingFlow
  import opened PyLiterals
  import opened ScannerExact

  /** The scanner reports nothing, and some run truncates a path outside all places that exist at that moment. */
  ghost predicate SilentlyUnsafe(program: seq<Stmt>) {
    FindingsB(program, {}) == [] && exists o :: Run(program, o).published != {}
  }

  lemma {:induction false} UnsafeIf(program: seq<Stmt>, n: nat)
    requires FairB(program, n) && FindingsB(program, {}) == [] && !QuietB(false, program, {})
    ensures SilentlyUnsafe(program)
  {
    ProgramExact(false, program, n);
    var o :| Run(program, o).published != {};
  }

  // ----- the statements of the families

  /** A bare call of a staging binder, such as `mkdtemp()`. */
  predicate IsStage(call: Expr) {
    && call.Call? && call.func.Name? && call.args == [] && call.keywords == []
    && call.func.id in STAGING_BINDERS && call.func.id !in {"open", "fdopen"}
  }

  /** A bare `x.write_text()` or `x.write_bytes()`. */
  predicate IsWrite(call: Expr, x: string) {
    && call.Call? && call.args == [] && call.keywords == [] && call.func.Attribute?
    && call.func.obj == Name(x) && call.func.attr in TRUNCATING_METHODS
  }

  function Set(x: string, value: Expr): Stmt {
    Assign([NameTarget(x)], value)
  }

  /** What scanner and reference make of a statement that can only go on or raise. */
  predicate Plain(stmt: Stmt, s: set<string>, after: set<string>, n: nat) {
    && FairStmt(stmt, n) && Findings(stmt, s) == [] && Exit(stmt, s) == after
    && Follow(false, stmt, s) == Simple(s, after) && Quiet(false, stmt, s)
  }

  lemma {:induction false} SetBinds(x: string, value: Expr, s: set<string>)
    ensures Exit(Set(x, value), s) == if IsStagingExpr(value, s) then s + {x} else s - {x}
    ensures Follow(false, Set(x, value), s) == Simple(s, Exit(Set(x, value), s))
  {
    var targets, staged := [NameTarget(x)], IsStagingExpr(value, s);
    assert BoundNames(targets[0]) == {x} && targets[1..] == [];
    assert BindTargets(s, targets, staged) == Rebound(s, {x}, staged);
  }

  lemma {:induction false} Stages(x: string, stage: Expr, s: set<string>, n: nat)
    requires IsStage(stage)
    ensures Plain(Set(x, stage), s, s + {x}, n)
  {
    SetBinds(x, stage, s);
    assert ExprFindings(stage.func, s) == [] && QuietExpr(stage.func, s) && Fair(stage.func, n);
    assert QuietExprs(stage.args, s) && QuietKeywords(stage.keywords, s);
    assert FairAll(stage.args, n) && FairKeywords(stage.keywords, n);
    assert CallFindings(stage, s) == [] && QuietCall(stage, s);
    assert ExprFindings(stage, s) == [] && QuietExpr(stage, s) && Fair(stage, n);
  }

  lemma {:induction false} Publishes(x: string, out: string, s: set<string>, n: nat)
    requires |out| < n
    ensures Plain(Set(x, Str(out)), s, s - {x}, n)
  {
    SetBinds(x, Str(out), s);
  }

  lemma {:induction false} Writes(x: string, write: Expr, s: set<string>, n: nat)
    requires IsWrite(write, x)
    ensures FairStmt(ExprStmt(write), n) && Follow(false, ExprStmt(write), s) == Simple(s, s)
    ensures Findings(ExprStmt(write), s) == [] <==> x in s
    ensures Quiet(false, ExprStmt(write), s) <==> x in s
  {
    assert ExprFindings(Name(x), s) == [] && ExprFindings(write.func, s) == [] && QuietExpr(write.func, s);
    assert Fair(Name(x), n) && Fair(write.func, n);
    assert CallFindings(write, s) == [] <==> x in s;
    assert QuietCall(write, s) <==> x in s;
    assert ExprFindings(write, s) == [] <==> x in s;
    assert QuietExpr(write, s) <==> x in s;
  }

  lemma {:induction false} One(a: Stmt, s: set<string>, n: nat)
    ensures FairB([a], n) <==> FairStmt(a, n)
    ensures FindingsB([a], s) == Findings(a, s) && ExitB([a], s) == Exit(a, s)
    ensures QuietB(false, [a], s) <==> Quiet(false, a, s)
    ensures FollowB(false, [a], s) == Follow(false, a, s)
  {
    assert [a][1..] == [] && [a][0] == a;
    assert QuietFrom(false, [], Follow(false, a, s).next);
  }

  lemma {:induction false} Empty(s: set<string>)
    ensures (forall n :: FairB([], n)) && FindingsB([], s) == [] && ExitB([], s) == s
  {
  }

  lemma {:induction false} NothingElse(ever: bool, s: set<string>)
    ensures FollowB(ever, [], s) == DEAD.(next := Names(s)) && QuietB(ever, [], s) && s - {} == s
  {
  }

  lemma {:induction false} OneItem(item: WithItem, s: set<string>, n: nat)
    ensures forall ever :: AfterEnter(ever, [item], s) == EnterOne(ever, item, s)
    ensures AfterItems([item], s) == EnterOne(true, item, s) && ItemNames([item]) == BoundNames(item.target)
    ensures ItemFindings([item], s) == ExprFindings(item.context, s)
    ensures QuietItems([item], s) <==> QuietExpr(item.context, s)
    ensures FairItems([item], n) <==> Fair(item.context, n)
  {
    assert [item][1..] == [] && ItemFindings([item][1..], EnterOne(true, item, s)) == [];
  }

  lemma {:induction false} Cons(a: Stmt, rest: seq<Stmt>, s: set<string>, after: set<string>, n: nat)
    requires Plain(a, s, after, n)
    ensures FairB([a] + rest, n) <==> FairB(rest, n)
    ensures FindingsB([a] + rest, s) == FindingsB(rest, after) && ExitB([a] + rest, s) == ExitB(rest, after)
    ensures QuietB(false, [a] + rest, s) <==> QuietB(false, rest, after)
    ensures FollowB(false, [a] + rest, s) == Both(DEAD.(raised := Names(s)), FollowB(false, rest, after))
  {
    assert ([a] + rest)[1..] == rest;
  }

  /** A statement after the one that makes `x` a published path. */
  lemma {:induction false} AfterPublished(x: string, out: string, stmt: Stmt, n: nat)
    requires |out| < n && FairStmt(stmt, n) && Findings(stmt, {}) == [] && !Quiet(false, stmt, {})
    ensures SilentlyUnsafe([Set(x, Str(out)), stmt])
  {
    Publishes(x, out, {}, n);
    One(stmt, {}, n);
    var none: set<string> := {};
    assert none - {x} == none && [Set(x, Str(out)), stmt] == [Set(x, Str(out))] + [stmt];
    Cons(Set(x, Str(out)), [stmt], none, none, n);
    UnsafeIf([Set(x, Str(out)), stmt], n);
  }

  /** A statement between the one that stages `x` and a write to `x`: it drops what the scanner goes on trusting. */
  lemma {:induction false} BeforeWrite(x: string, stage: Expr, stmt: Stmt, write: Expr, n: nat)
    requires IsStage(stage) && IsWrite(write, x)
    requires FairStmt(stmt, n) && Findings(stmt, {x}) == [] && x in Exit(stmt, {x})
    requires Follow(false, stmt, {x}).next.Names? && x !in Follow(false, stmt, {x}).next.s
    ensures SilentlyUnsafe([Set(x, stage), stmt, ExprStmt(write)])
  {
    var first, last := Set(x, stage), ExprStmt(write);
    var program := [first, stmt, last];
    Stages(x, stage, {}, n);
    var none: set<string> := {};
    assert none + {x} == {x} && program == [first] + [stmt, last] && [stmt, last][1..] == [last];
    Cons(first, [stmt, last], none, {x}, n);
    var after := Follow(false, stmt, {x}).next.s;
    Writes(x, write, after, n);
    Writes(x, write, Exit(stmt, {x}), n);
    One(last, after, n);
    One(last, Exit(stmt, {x}), n);
    assert FindingsB([stmt, last], {x}) == Findings(stmt, {x}) + FindingsB([last], Exit(stmt, {x}));
    assert QuietB(false, [stmt, last], {x}) ==> QuietB(false, [last], after);
    UnsafeIf(program, n);
  }

  /** A body that makes `x` a published path, may end there, and otherwise stages `x` again. */
  lemma {:induction false} Restaged(x: string, out: string, middle: Stmt, stage: Expr, s: set<string>, n: nat)
    requires |out| < n && IsStage(stage) && FairStmt(middle, n) && Findings(middle, s - {x}) == []
    requires Exit(middle, s - {x}) == s - {x} && Quiet(false, middle, s - {x})
    requires Follow(false, middle, s - {x}).next in {Never, Names(s - {x})}
    ensures var body := [Set(x, Str(out)), middle, Set(x, stage)];
      var f := Follow(false, middle, s - {x});
      && FairB(body, n) && FindingsB(body, s) == [] && ExitB(body, s) == s + {x} && QuietB(false, body, s)
      && FollowB(false, body, s) ==
           Both(DEAD.(raised := Names(s)),
                Both(f.(next := Never), if f.next.Never? then DEAD else Simple(s - {x}, s + {x})))
  {
    var first, last := Set(x, Str(out)), Set(x, stage);
    var s1 := s - {x};
    Publishes(x, out, s, n);
    Stages(x, stage, s1, n);
    One(last, s1, n);
    assert s1 + {x} == s + {x};
    var rest := [middle, last];
    assert [first, middle, last] == [first] + rest && rest[1..] == [last];
    Cons(first, rest, s, s1, n);
  }

  // ----- loops

  /** `for ... else` after a body that stages a name: without a round the name is not staged. */
  lemma {:induction false} ForElseUnsafe(x: string, out: string, stage: Expr, write: Expr)
    requires IsStage(stage) && IsWrite(write, x)
    ensures SilentlyUnsafe([Set(x, Str(out)), For(Store, Const, [Set(x, stage)], [ExprStmt(write)])])
  {
    var n, none: set<string> := |out| + 1, {};
    var loop := For(Store, Const, [Set(x, stage)], [ExprStmt(write)]);
    Stages(x, stage, none, n);
    One(Set(x, stage), none, n);
    assert none - BoundNames(Store) == none && none + {x} == {x};
    Writes(x, write, {x}, n);
    One(ExprStmt(write), {x}, n);
    Writes(x, write, none, n);
    One(ExprStmt(write), none, n);
    AfterPublished(x, out, loop, n);
  }

  /** A body whose last statement publishes a path: the first round writes to a private one, the second does not. */
  lemma {:induction false} LoopUnsafe(x: string, out: string, stage: Expr, write: Expr)
    requires IsStage(stage) && IsWrite(write, x)
    ensures SilentlyUnsafe([Set(x, stage), For(Store, Const, [ExprStmt(write), Set(x, Str(out))], [])])
  {
    var n, none: set<string> := |out| + 1, {};
    var first, last := Set(x, stage), Set(x, Str(out));
    var body := [ExprStmt(write), last];
    var loop := For(Store, Const, body, []);
    Stages(x, stage, none, n);
    assert none + {x} == {x} && [first, loop] == [first] + [loop] && {x} - BoundNames(Store) == {x};
    Cons(first, [loop], none, {x}, n);
    One(loop, {x}, n);
    PublishedRound(x, out, write, n);
    assert none - BoundNames(Store) == none && LoopNames(false, BoundNames(Store), body, {x}) == none;
    assert !Quiet(false, loop, {x});
    UnsafeIf([first, loop], n);
  }

  lemma {:induction false} PublishedRound(x: string, out: string, write: Expr, n: nat)
    requires IsWrite(write, x) && |out| < n
    ensures var body := [ExprStmt(write), Set(x, Str(out))];
      && FairB(body, n) && FindingsB(body, {x}) == [] && LoopNames(false, {}, body, {x}) == {}
      && !QuietB(false, body, {})
  {
    var last := Set(x, Str(out));
    var body := [ExprStmt(write), last];
    var none: set<string> := {};
    Writes(x, write, {x}, n);
    Writes(x, write, none, n);
    Publishes(x, out, {x}, n);
    One(last, {x}, n);
    assert {x} - {x} == none && body == [ExprStmt(write)] + [last] && {x} - {} == {x};
    Cons(ExprStmt(write), [last], {x}, {x}, n);
    assert Kept({x}, FollowB(false, body, {x})) == none;
    assert LoopNames(false, {}, body, none) == none;
  }

  /** `break` before a name is staged again: the body keeps the entry set, the broken round does not. */
  lemma {:induction false} BreakUnsafe(x: string, out: string, stage: Expr, write: Expr)
    requires IsStage(stage) && IsWrite(write, x)
    ensures SilentlyUnsafe([Set(x, stage), BreakLoop(x, out, stage), ExprStmt(write)])
  {
    hide Follow, Findings, Exit, FairStmt;
    BrokenOff(x, out, stage, |out| + 1);
    BeforeWrite(x, stage, BreakLoop(x, out, stage), write, |out| + 1);
  }

  /** The scanner goes on trusting `x` after the loop, which may have been left where `x` is published. */
  lemma {:induction false} BrokenOff(x: string, out: string, stage: Expr, n: nat)
    requires IsStage(stage) && |out| < n
    ensures var loop := BreakLoop(x, out, stage);
      && FairStmt(loop, n) && Findings(loop, {x}) == [] && x in Exit(loop, {x})
      && Follow(false, loop, {x}).next == Names({})
  {
    var loop := BreakLoop(x, out, stage);
    assert {x} - BoundNames(Store) == {x} && {x} - {x} == {} && {} + {x} == {x};
    MayBreak({}, n);
    Restaged(x, out, If(Const, [Break], []), stage, {x}, n);
    hide FollowB, QuietB, FindingsB, ExitB, FairB;
    NothingElse(false, {x});
    Empty({x});
    assert LoopNames(false, BoundNames(Store), loop.body, {x}) == {x};
  }

  lemma {:induction false} MayBreak(s: set<string>, n: nat)
    ensures var leave := If(Const, [Break], []);
      && FairStmt(leave, n) && Findings(leave, s) == [] && Exit(leave, s) == s && Quiet(false, leave, s)
      && Follow(false, leave, s) == Flow(Names(s), Names(s), Never, Names(s), Never)
  {
    One(Break, s, n);
    NothingElse(false, s);
    Empty(s);
  }

  function BreakLoop(x: string, out: string, stage: Expr): Stmt {
    For(Store, Const, [Set(x, Str(out)), If(Const, [Break], []), Set(x, stage)], [])
  }

  // ----- exceptions

  /** An exception before a name is staged reaches a handler that the scanner reads as coming after. */
  lemma {:induction false} TryUnsafe(x: string, out: string, stage: Expr, write: Expr)
    requires IsStage(stage) && IsWrite(write, x)
    ensures SilentlyUnsafe([Set(x, Str(out)), Try([Set(x, stage)], [Handler([ExprStmt(write)])], [], [])])
  {
    hide ExprFindings, QuietExpr, Fair, IsStagingExpr, SilentlyUnsafe;
    var n, none: set<string> := |out| + 1, {};
    var handlers := [Handler([ExprStmt(write)])];
    var attempt := Try([Set(x, stage)], handlers, [], []);
    Stages(x, stage, none, n);
    One(Set(x, stage), none, n);
    assert none + {x} == {x} && handlers[1..] == [];
    Writes(x, write, {x}, n);
    One(ExprStmt(write), {x}, n);
    Writes(x, write, none, n);
    One(ExprStmt(write), none, n);
    Empty(ExitH(handlers, {x}));
    assert FindingsH(handlers, {x}) == [];
    AfterPublished(x, out, attempt, n);
  }

  /** A context manager that swallows exceptions ends a `with` before its body stages the name again. */
  lemma {:induction false} SwallowUnsafe(x: string, out: string, stage: Expr, write: Expr)
    requires IsStage(stage) && IsWrite(write, x)
    ensures SilentlyUnsafe([Set(x, stage), Swallow(x, out, stage), ExprStmt(write)])
  {
    var n, none: set<string> := |out| + 1, {};
    var items := [WithItem(Const, Store)];
    assert {x} - {x} == none && none + {x} == {x};
    NoBinder({x});
    Restaged(x, out, AnnOnly, stage, {x}, n);
    BeforeWrite(x, stage, Swallow(x, out, stage), write, n);
  }

  lemma {:induction false} NoBinder(s: set<string>)
    ensures var items := [WithItem(Const, Store)];
      && (forall ever :: AfterEnter(ever, items, s) == s) && AfterItems(items, s) == s && ItemNames(items) == {}
      && EnterRaised(false, items, s) == Names(s) && EnterSwallowed(false, items, s, false).Never?
      && MaySwallow(items) && ItemFindings(items, s) == [] && QuietItems(items, s) && FairItems(items, 0)
  {
    var items := [WithItem(Const, Store)];
    assert items[1..] == [] && s - BoundNames(Store) == s;
    OneItem(items[0], s, 0);
  }

  function Swallow(x: string, out: string, stage: Expr): Stmt {
    With([WithItem(Const, Store)], [Set(x, Str(out)), AnnOnly, Set(x, stage)])
  }

  // ----- the end of a place

  /** A name that holds a path below the place of a `with` outlives the place. */
  lemma {:induction false} EndedUnsafe(x: string, d: string, part: string, stage: Expr, write: Expr)
    requires IsStage(stage) && IsWrite(write, x) && x != d && IsRelativeLiteral(Str(part))
    ensures SilentlyUnsafe([Set(x, stage), With([WithItem(stage, NameTarget(d))], [Set(x, Div(Name(d), Str(part)))]),
                            ExprStmt(write)])
  {
    var n := |part| + 1;
    var items := [WithItem(stage, NameTarget(d))];
    var last := Set(x, Div(Name(d), Str(part)));
    var block := With(items, [last]);
    var value := Div(Name(d), Str(part));
    Stages(d, stage, {x}, n);
    OneItem(items[0], {x}, n);
    assert items[0].target == NameTarget(d) && BoundNames(items[0].target) == {d} && {x} - {d} == {x};
    assert EnterOne(true, items[0], {x}) == {x, d} && EnterOne(false, items[0], {x}) == {x};
    SetBinds(x, value, {x, d});
    SetBinds(x, value, {x});
    One(last, {x, d}, n);
    One(last, {x}, n);
    assert Fair(value.left, n) && Fair(value.right, n) && ExprFindings(value, {x, d}) == [];
    assert IsStagingExpr(value, {x, d}) && !IsStagingExpr(value, {x}) && x !in {x} - {x};
    BeforeWrite(x, stage, block, write, n);
  }

  // ----- decorators

  /** Decorators run outside the function but are read with the names that its body staged. */
  lemma {:induction false} DecoratorUnsafe(x: string, out: string, stage: Expr, write: Expr, f: string)
    requires IsStage(stage) && IsWrite(write, x)
    ensures SilentlyUnsafe([Set(x, Str(out)), Def(f, [], [Set(x, stage)], [write])])
  {
    var n, none: set<string> := |out| + 1, {};
    var def := Def(f, [], [Set(x, stage)], [write]);
    Stages(x, stage, none, n);
    One(Set(x, stage), none, n);
    assert none + {x} == {x} && def.decorators[1..] == [];
    Writes(x, write, {x}, n);
    Writes(x, write, none, n);
    AfterPublished(x, out, def, n);
  }
}
