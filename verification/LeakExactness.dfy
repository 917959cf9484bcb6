/** The reference is exact for writes too: a statement that is not quiet truncates a path outside the private places in
    some run. */
module LeakExactness {
  import opened Common
  import opened PyAst
  import opened WriteScanner
  import opened PyRuns
  import opened StagingFlow
  import opened FlowSoundness
  import opened PyLiterals
  import opened RunWitness
  import opened ExprWitness
  import opened StmtWitness
  import opened WithWitness
  import opened RunExactness

  /** From every state in which `src` is outside some run truncates a path outside. */
  ghost predicate Leaks(ever: bool, stmt: Stmt, src: Option<string>, n: nat) {
    forall st | Start(ever, st, src, {}, n) :: exists o :: Marks(ever, Exec(stmt, st, o)) != {}
  }

  ghost predicate LeaksB(ever: bool, block: seq<Stmt>, src: Option<string>, n: nat) {
    forall st | Start(ever, st, src, {}, n) :: exists o :: Marks(ever, ExecB(block, st, o)) != {}
  }

  // ----- simple statements

  predicate IsSimple(stmt: Stmt) {
    stmt.ExprStmt? || stmt.Return? || stmt.Raise? || stmt.Rebind? || stmt.Assign?
  }

  lemma {:induction false} SimpleLeaks(ever: bool, stmt: Stmt, s: set<string>, n: nat) returns (src: Option<string>)
    requires IsSimple(stmt) && FairStmt(stmt, n) && !Quiet(ever, stmt, s)
    ensures Unstaged(src, s) && Leaks(ever, stmt, src, n)
  {
    if stmt.Rebind? {
      src := LeakSourceAll(stmt.exprs, s);
      LeakUnstagedAll(stmt.exprs, s, n);
    } else {
      var e := if stmt.Assign? then stmt.value else stmt.expr;
      src := LeakSource(e, s);
      LeakUnstaged(e, s, n);
    }
    forall st | Start(ever, st, src, {}, n) ensures exists o :: Marks(ever, Exec(stmt, st, o)) != {} {
      var o := SimpleLeak(ever, stmt, s, st, src, n);
    }
  }

  lemma {:induction false} SimpleLeak(ever: bool, stmt: Stmt, s: set<string>, st: State, src: Option<string>, n: nat)
      returns (o: Oracle)
    requires IsSimple(stmt) && FairStmt(stmt, n) && !Quiet(ever, stmt, s) && Start(ever, st, src, {}, n)
    requires src == if stmt.Rebind? then LeakSourceAll(stmt.exprs, s)
                    else LeakSource(if stmt.Assign? then stmt.value else stmt.expr, s)
    ensures Marks(ever, Exec(stmt, st, o)) != {}
  {
    var a;
    if stmt.Rebind? {
      a := ExprsLeak(ever, stmt.exprs, s, st, n);
    } else {
      a := ExprLeaks(ever, if stmt.Assign? then stmt.value else stmt.expr, s, st, n);
    }
    o := Node(OUT.path, [a]);
  }

  // ----- `with`

  ghost predicate LeaksEntering(ever: bool, items: seq<WithItem>, src: Option<string>, n: nat) {
    forall st | Start(ever, st, src, {}, n) :: exists o :: Marks(ever, Enter(items, st, o).st) != {}
  }

  lemma {:induction false} ItemsLeak(ever: bool, items: seq<WithItem>, s: set<string>, n: nat)
      returns (src: Option<string>)
    requires FairItems(items, n) && !QuietItems(items, s)
    ensures Unstaged(src, s) && LeaksEntering(ever, items, src, n)
    decreases items
  {
    var item := items[0];
    if !QuietExpr(item.context, s) {
      src := LeakSource(item.context, s);
      LeakUnstaged(item.context, s, n);
      FirstItemLeaks(ever, items, s, src, n);
    } else {
      var mid := ItemsLeak(ever, items[1..], EnterOne(true, item, s), n);
      src := if mid.Some? && mid.value in BoundNames(item.target) then None else mid;
      LaterItemLeaks(ever, items, s, src, mid, n);
    }
  }

  lemma {:induction false} FirstItemLeaks(ever: bool, items: seq<WithItem>, s: set<string>, src: Option<string>, n: nat)
    requires items != [] && FairItems(items, n) && !QuietExpr(items[0].context, s)
    requires src == LeakSource(items[0].context, s)
    ensures LeaksEntering(ever, items, src, n)
  {
    forall st | Start(ever, st, src, {}, n) ensures exists o :: Marks(ever, Enter(items, st, o).st) != {} {
      var a := ExprLeaks(ever, items[0].context, s, st, n);
      var o := Node(OUT.path, [a]);
      EnterLater(items, st, o);
      MarksLater(ever, Eval(items[0].context, st, a).1, Enter(items, st, o).st);
      assert Marks(ever, Enter(items, st, o).st) != {};
    }
  }

  lemma {:induction false} LaterItemLeaks(ever: bool, items: seq<WithItem>, s: set<string>, src: Option<string>,
                                          mid: Option<string>, n: nat)
    requires items != [] && FairItems(items, n) && Unstaged(mid, EnterOne(true, items[0], s))
    requires src == if mid.Some? && mid.value in BoundNames(items[0].target) then None else mid
    requires LeaksEntering(ever, items[1..], mid, n)
    ensures LeaksEntering(ever, items, src, n)
  {
    hide Enter, Eval, BindTo, Start, Good, Later;
    var item := items[0];
    forall st | Start(ever, st, src, {}, n) ensures exists o :: Marks(ever, Enter(items, st, o).st) != {} {
      RunningNow(ever, st, src, {}, n);
      var a := ItemLoses(ever, true, item, st, mid, {}, n);
      var (v, st1) := Eval(item.context, st, a);
      var st2 := BindTo(item.target, if IsBinderCall(item.context) then v else OUT, st1, QUIET.now.pick);
      var b :| Marks(ever, Enter(items[1..], st2, b).st) != {};
      var o := Oracle(QUIET.now, [a, b]);
      EnterStep(items, st, o);
      assert Marks(ever, Enter(items, st, o).st) != {};
    }
  }

  lemma {:induction false} EnterLater(items: seq<WithItem>, st: State, o: Oracle)
    requires items != [] && st.out.Running?
    ensures Later(Eval(items[0].context, st, Sub(o, 0)).1, Enter(items, st, o).st)
  {
  }

  lemma {:induction false} WithLeaks(ever: bool, stmt: Stmt, s: set<string>, n: nat) returns (src: Option<string>)
    requires stmt.With? && FairStmt(stmt, n) && !Quiet(ever, stmt, s)
    ensures Unstaged(src, s) && Leaks(ever, stmt, src, n)
    decreases stmt, 0
  {
    if !QuietItems(stmt.items, s) {
      src := ItemsLeak(ever, stmt.items, s, n);
      ItemsThrough(ever, stmt, src, n);
    } else {
      var mid := BlockLeaks(ever, stmt.body, AfterEnter(true, stmt.items, s), n);
      src := EnterLoses(ever, true, stmt.items, s, mid, n);
      BodyThrough(ever, stmt, src, mid, n);
    }
  }

  lemma {:induction false} ItemsThrough(ever: bool, stmt: Stmt, src: Option<string>, n: nat)
    requires stmt.With? && LeaksEntering(ever, stmt.items, src, n)
    ensures Leaks(ever, stmt, src, n)
  {
    hide Exec, ExecB, Enter, Ready, Missing;
    forall st | Start(ever, st, src, {}, n) ensures exists o :: Marks(ever, Exec(stmt, st, o)) != {} {
      StartRuns(ever, st, src, {}, n);
      var a :| Marks(ever, Enter(stmt.items, st, a).st) != {};
      var o := Node(OUT.path, [a]);
      LeaveMarks(ever, stmt, st, o);
    }
  }

  lemma {:induction false} BodyThrough(ever: bool, stmt: Stmt, src: Option<string>, mid: Option<string>, n: nat)
    requires stmt.With? && EnterAble(ever, true, stmt.items, src, mid, n) && LeaksB(ever, stmt.body, mid, n)
    ensures Leaks(ever, stmt, src, n)
  {
    hide Exec, ExecB, Enter, Ready, Missing, Later, MaySwallow, Inside, Start, Marks;
    forall st | Start(ever, st, src, {}, n) ensures exists o :: Marks(ever, Exec(stmt, st, o)) != {} {
      StartRuns(ever, st, src, {}, n);
      var a :| Inside(ever, true, Enter(stmt.items, st, a), stmt.items, mid, {}, n)
               && Later(st, Enter(stmt.items, st, a).st);
      var r := Enter(stmt.items, st, a);
      InsideNow(ever, true, r, stmt.items, mid, {}, n);
      var b :| Marks(ever, ExecB(stmt.body, r.st, b)) != {};
      var o := Node(OUT.path, [a, b]);
      ExecWith(stmt, st, o);
      MarksLeaving(ever, r, ExecB(stmt.body, r.st, b), Sub(o, 2));
      assert Marks(ever, Exec(stmt, st, o)) != {};
    }
  }

  lemma {:induction false} MarksLeaving(ever: bool, r: Entered, st: State, o: Oracle)
    ensures Marks(ever, Leave(r, st, o)) == Marks(ever, st)
  {
  }

  lemma {:induction false} LeaveMarks(ever: bool, stmt: Stmt, st: State, o: Oracle)
    requires stmt.With? && st.out.Running? && !o.now.raises && Marks(ever, Enter(stmt.items, st, Sub(o, 0)).st) != {}
    ensures Marks(ever, Exec(stmt, st, o)) != {}
  {
    var r := Enter(stmt.items, st, Sub(o, 0));
    ExecWith(stmt, st, o);
    MarksLater(ever, r.st, ExecB(stmt.body, r.st, Sub(o, 1)));
  }

  // ----- blocks and branches

  lemma {:induction false} BlockLeaks(ever: bool, block: seq<Stmt>, s: set<string>, n: nat)
      returns (src: Option<string>)
    requires FairB(block, n) && !QuietB(ever, block, s)
    ensures Unstaged(src, s) && LeaksB(ever, block, src, n)
    decreases block, 0
  {
    if !Quiet(ever, block[0], s) {
      src := StmtLeaks(ever, block[0], s, n);
      forall st | Start(ever, st, src, {}, n) ensures exists o :: Marks(ever, ExecB(block, st, o)) != {} {
        StartRuns(ever, st, src, {}, n);
        var a :| Marks(ever, Exec(block[0], st, a)) != {};
        var o := Node(OUT.path, [a]);
        MarksLater(ever, Exec(block[0], st, a), ExecB(block, st, o));
      }
    } else {
      var f := Follow(ever, block[0], s);
      var mid := BlockLeaks(ever, block[1..], f.next.s, n);
      src := StmtAble(ever, block[0], s, Running, mid, n);
      forall st | Start(ever, st, src, {}, n) ensures exists o :: Marks(ever, ExecB(block, st, o)) != {} {
        StartRuns(ever, st, src, {}, n);
        var a :| EndsIn(ever, Exec(block[0], st, a), Running, mid, {}, n);
        var st1 := Exec(block[0], st, a);
        StartNow(ever, st1, mid, {}, n);
        var b :| Marks(ever, ExecB(block[1..], st1, b)) != {};
        assert Marks(ever, ExecB(block, st, Node(OUT.path, [a, b]))) != {};
      }
    }
  }

  lemma {:induction false} IfLeaks(ever: bool, stmt: Stmt, s: set<string>, n: nat) returns (src: Option<string>)
    requires stmt.If? && FairStmt(stmt, n) && !Quiet(ever, stmt, s)
    ensures Unstaged(src, s) && Leaks(ever, stmt, src, n)
    decreases stmt, 0
  {
    if !QuietExpr(stmt.test, s) {
      src := LeakSource(stmt.test, s);
      LeakUnstaged(stmt.test, s, n);
      forall st | Start(ever, st, src, {}, n) ensures exists o :: Marks(ever, Exec(stmt, st, o)) != {} {
        var a := ExprLeaks(ever, stmt.test, s, st, n);
        var o := Node(OUT.path, [a]);
        ExecIf(stmt, st, o);
        MarksLater(ever, Eval(stmt.test, st, a).1, Exec(stmt, st, o));
      }
    } else {
      var branch := !QuietB(ever, stmt.body, s);
      src := BlockLeaks(ever, if branch then stmt.body else stmt.orelse, s, n);
      BranchLeaks(ever, stmt, branch, src, n);
    }
  }

  lemma {:induction false} BranchLeaks(ever: bool, stmt: Stmt, branch: bool, src: Option<string>, n: nat)
    requires stmt.If? && FairStmt(stmt, n) && LeaksB(ever, if branch then stmt.body else stmt.orelse, src, n)
    ensures Leaks(ever, stmt, src, n)
  {
    var block := if branch then stmt.body else stmt.orelse;
    forall st | Start(ever, st, src, {}, n) ensures exists o :: Marks(ever, Exec(stmt, st, o)) != {} {
      var a := EvalRuns(stmt.test, st, n);
      var st1 := Eval(stmt.test, st, a).1;
      MissingLater(ever, src, st, st1, {}, {}, n);
      assert Start(ever, st1, src, {}, n);
      var b :| Marks(ever, ExecB(block, st1, b)) != {};
      var o := Oracle(Calm(OUT.path).(branch := branch), [a, b]);
      ExecIf(stmt, st, o);
      assert Marks(ever, Exec(stmt, st, o)) != {};
    }
  }

  // ----- loops

  lemma {:induction false} TestLeaks(ever: bool, targets: set<string>, tests: seq<Expr>, body: seq<Stmt>,
                                     head: set<string>, n: nat) returns (src: Option<string>)
    requires FairAll(tests, n) && !QuietExprs(tests, head)
    ensures Unstaged(src, head) && LoopCan(ever, targets, tests, body, src, Truncate, n)
  {
    src := LeakSourceAll(tests, head);
    LeakUnstagedAll(tests, head, n);
    forall st, gone | Start(ever, st, src, gone, n)
      ensures exists count: nat, o :: Hits(ever, ExecLoop(targets, tests, body, count, st, o), Truncate, gone, n)
    {
      var o := QUIET;
      if gone == {} {
        var a := ExprsLeak(ever, tests, head, st, n);
        o := Node(OUT.path, [a]);
      }
      assert Hits(ever, ExecLoop(targets, tests, body, 0, st, o), Truncate, gone, n);
    }
  }

  lemma {:induction false} BodyLeaks(ever: bool, targets: set<string>, tests: seq<Expr>, body: seq<Stmt>,
                                     src: Option<string>, inner: Option<string>, n: nat)
    requires FairAll(tests, n) && LeaksB(ever, body, inner, n)
    requires src == if inner.Some? && inner.value in targets then None else inner
    ensures LoopCan(ever, targets, tests, body, src, Truncate, n)
  {
    hide ExecLoop, ExecB, EvalAll, Ready, Missing;
    forall st, gone | Start(ever, st, src, gone, n)
      ensures exists count: nat, o :: Hits(ever, ExecLoop(targets, tests, body, count, st, o), Truncate, gone, n)
    {
      var o := QUIET;
      if gone == {} {
        StartRuns(ever, st, src, gone, n);
        var a := HeadRuns(ever, targets, tests, st, src, inner, gone, n);
        var st1 := BindAny(targets, EvalAll(tests, st, a).1, QUIET);
        var b :| Marks(ever, ExecB(body, st1, b)) != {};
        o := Node(OUT.path, [a, b]);
        RoundStep(targets, tests, body, 1, st, o, st1);
        MarksLater(ever, ExecB(body, st1, b), ExecLoop(targets, tests, body, 1, st, o));
      }
      assert Hits(ever, ExecLoop(targets, tests, body, 1, st, o), Truncate, gone, n);
    }
  }

  lemma {:induction false} LoopLeaks(ever: bool, loop: Stmt, s: set<string>, n: nat) returns (src: Option<string>)
    requires (loop.For? || loop.While?) && FairStmt(loop, n) && !Quiet(ever, loop, s)
    requires loop.For? ==> QuietExpr(loop.iter, s)
    ensures Unstaged(src, s) && Leaks(ever, loop, src, n)
    decreases loop, 0
  {
    var targets := if loop.For? then BoundNames(loop.target) else {};
    var tests: seq<Expr> := if loop.For? then [] else [loop.test];
    assert tests != [] ==> tests[1..] == [];
    var head := LoopNames(ever, targets, loop.body, s);
    assert loop.While? ==> head - targets == head;
    if !QuietExprs(tests, head) || !QuietB(ever, loop.body, head - targets) {
      var y;
      if !QuietExprs(tests, head) {
        y := TestLeaks(ever, targets, tests, loop.body, head, n);
      } else {
        var inner := BlockLeaks(ever, loop.body, head - targets, n);
        y := if inner.Some? && inner.value in targets then None else inner;
        BodyLeaks(ever, targets, tests, loop.body, y, inner, n);
      }
      src := LiftLoop(ever, targets, tests, loop.body, s, y, Truncate, n);
      RoundsLeak(ever, loop, targets, tests, src, n);
    } else {
      var mid := BlockLeaks(ever, loop.orelse, head, n);
      ExitNow(ever, targets, tests, loop.body, mid, n, false);
      src := LiftLoop(ever, targets, tests, loop.body, s, mid, Reach(Running, mid), n);
      OrelseLeaks(ever, loop, targets, tests, src, mid, n);
    }
  }

  lemma {:induction false} RoundsLeak(ever: bool, loop: Stmt, targets: set<string>, tests: seq<Expr>,
                                      src: Option<string>, n: nat)
    requires (loop.For? || loop.While?) && targets == (if loop.For? then BoundNames(loop.target) else {})
    requires tests == (if loop.For? then [] else [loop.test]) && FairStmt(loop, n)
    requires LoopCan(ever, targets, tests, loop.body, src, Truncate, n)
    ensures Leaks(ever, loop, src, n)
  {
    hide Exec, ExecLoop, ExecB, Eval, Ready, Missing;
    forall st | Start(ever, st, src, {}, n) ensures exists o :: Marks(ever, Exec(loop, st, o)) != {} {
      StartRuns(ever, st, src, {}, n);
      var a := IterRuns(ever, loop, st, src, {}, n);
      var st1 := if loop.For? then Eval(loop.iter, st, a).1 else st;
      var count: nat, b :| Hits(ever, ExecLoop(targets, tests, loop.body, count, st1, b), Truncate, {}, n);
      var st2 := ExecLoop(targets, tests, loop.body, count, st1, b);
      var o := Oracle(Calm(OUT.path).(count := count), [a, b]);
      ExecLoopStmt(loop, st, o);
      MarksLater(ever, st2, Exec(loop, st, o));
    }
  }

  lemma {:induction false} OrelseLeaks(ever: bool, loop: Stmt, targets: set<string>, tests: seq<Expr>,
                                       src: Option<string>, mid: Option<string>, n: nat)
    requires (loop.For? || loop.While?) && targets == (if loop.For? then BoundNames(loop.target) else {})
    requires tests == (if loop.For? then [] else [loop.test]) && FairStmt(loop, n)
    requires LoopCan(ever, targets, tests, loop.body, src, Reach(Running, mid), n) && LeaksB(ever, loop.orelse, mid, n)
    ensures Leaks(ever, loop, src, n)
  {
    hide Exec, ExecLoop, ExecB, Eval, Ready, Missing;
    forall st | Start(ever, st, src, {}, n) ensures exists o :: Marks(ever, Exec(loop, st, o)) != {} {
      StartRuns(ever, st, src, {}, n);
      var a := IterRuns(ever, loop, st, src, {}, n);
      var st1 := if loop.For? then Eval(loop.iter, st, a).1 else st;
      var count: nat, b :| Hits(ever, ExecLoop(targets, tests, loop.body, count, st1, b), Reach(Running, mid), {}, n);
      var st2 := ExecLoop(targets, tests, loop.body, count, st1, b);
      StartNow(ever, st2, mid, {}, n);
      var c :| Marks(ever, ExecB(loop.orelse, st2, c)) != {};
      var o := Oracle(Calm(OUT.path).(count := count), [a, b, c]);
      ExecLoopStmt(loop, st, o);
      assert Marks(ever, Exec(loop, st, o)) != {};
    }
  }

  lemma {:induction false} IterLeaks(ever: bool, loop: Stmt, s: set<string>, n: nat) returns (src: Option<string>)
    requires loop.For? && FairStmt(loop, n) && !QuietExpr(loop.iter, s)
    ensures Unstaged(src, s) && Leaks(ever, loop, src, n)
  {
    src := LeakSource(loop.iter, s);
    LeakUnstaged(loop.iter, s, n);
    forall st | Start(ever, st, src, {}, n) ensures exists o :: Marks(ever, Exec(loop, st, o)) != {} {
      var a := ExprLeaks(ever, loop.iter, s, st, n);
      var o := Node(OUT.path, [a]);
      ExecLoopStmt(loop, st, o);
      MarksLater(ever, Eval(loop.iter, st, a).1, Exec(loop, st, o));
    }
  }

  // ----- `try`

  lemma {:induction false} LoudHandler(ever: bool, handlers: seq<Handler>, s: set<string>, n: nat) returns (k: nat)
    requires FairH(handlers, n) && !QuietH(ever, handlers, s)
    ensures k < |handlers| && FairB(handlers[k].body, n) && !QuietB(ever, handlers[k].body, s)
    decreases handlers
  {
    if !QuietB(ever, handlers[0].body, s) {
      k := 0;
    } else {
      var j := LoudHandler(ever, handlers[1..], s, n);
      k := j + 1;
    }
  }

  lemma {:induction false} LoudFinal(ever: bool, final: seq<Stmt>, pending: Flow) returns (k: Outcome)
    requires !QuietFinal(ever, final, pending)
    ensures At(pending, k).Names? && !QuietB(ever, final, At(pending, k).s)
  {
    k := if !QuietFrom(ever, final, pending.next) then Running
         else if !QuietFrom(ever, final, pending.raised) then Raised
         else if !QuietFrom(ever, final, pending.returned) then Returned
         else if !QuietFrom(ever, final, pending.broke) then Broke else Continued;
  }

  /** A block of a `try` that is reached with `mid` outside truncates a path outside. */
  lemma {:induction false} TryPartLeaks(ever: bool, stmt: Stmt, handler: bool, k: nat, src: Option<string>,
                                        mid: Option<string>, n: nat)
    requires stmt.Try? && (handler ==> k < |stmt.handlers|)
    requires AbleB(ever, stmt.body, src, if handler then Raised else Running, mid, n)
    requires LeaksB(ever, if handler then stmt.handlers[k].body else stmt.orelse, mid, n)
    ensures Leaks(ever, stmt, src, n)
  {
    hide Exec, ExecB, Ready, Missing;
    var out := if handler then Raised else Running;
    var block := if handler then stmt.handlers[k].body else stmt.orelse;
    forall st | Start(ever, st, src, {}, n) ensures exists o :: Marks(ever, Exec(stmt, st, o)) != {} {
      StartRuns(ever, st, src, {}, n);
      var a :| EndsIn(ever, ExecB(stmt.body, st, a), out, mid, {}, n);
      var st1 := ExecB(stmt.body, st, a);
      RoundStarts(ever, st1, out, mid, {}, n);
      var b :| Marks(ever, ExecB(block, st1.(out := Running), b)) != {};
      var o := Oracle(Calm(OUT.path).(branch := handler, count := k), [a, b]);
      assert handler ==> k % |stmt.handlers| == k;
      assert st1.out.Running? ==> st1.(out := Running) == st1;
      assert ExecTry(stmt, st, o) == ExecB(block, st1.(out := Running), b);
      TryMarks(ever, stmt, st, o);
    }
  }

  lemma {:induction false} TryMarks(ever: bool, stmt: Stmt, st: State, o: Oracle)
    requires stmt.Try? && st.out.Running? && !o.now.raises && Marks(ever, ExecTry(stmt, st, o)) != {}
    ensures Marks(ever, Exec(stmt, st, o)) != {}
  {
    var st2 := ExecTry(stmt, st, o);
    ExecTryStmt(stmt, st, o, o);
    MarksLater(ever, st2, ExecB(stmt.final, st2.(out := Running), Sub(o, 2)));
  }

  lemma {:induction false} TryBodyLeaks(ever: bool, stmt: Stmt, src: Option<string>, n: nat)
    requires stmt.Try? && LeaksB(ever, stmt.body, src, n)
    ensures Leaks(ever, stmt, src, n)
  {
    hide Exec, ExecB, Ready, Missing;
    forall st | Start(ever, st, src, {}, n) ensures exists o :: Marks(ever, Exec(stmt, st, o)) != {} {
      StartRuns(ever, st, src, {}, n);
      var a :| Marks(ever, ExecB(stmt.body, st, a)) != {};
      var o := Node(OUT.path, [a]);
      MarksLater(ever, ExecB(stmt.body, st, a), ExecTry(stmt, st, o));
      TryMarks(ever, stmt, st, o);
    }
  }

  lemma {:induction false} FinalLeaks(ever: bool, stmt: Stmt, src: Option<string>, k: Outcome, mid: Option<string>,
                                      n: nat)
    requires stmt.Try? && TryCan(ever, stmt, src, k, mid, n) && LeaksB(ever, stmt.final, mid, n)
    ensures Leaks(ever, stmt, src, n)
  {
    hide Exec, ExecB, ExecTry, Ready, Missing;
    forall st | Start(ever, st, src, {}, n) ensures exists o :: Marks(ever, Exec(stmt, st, o)) != {} {
      StartRuns(ever, st, src, {}, n);
      var a :| EndsIn(ever, ExecTry(stmt, st, a), k, mid, {}, n) && !a.now.raises;
      var st2 := ExecTry(stmt, st, a);
      RoundStarts(ever, st2, k, mid, {}, n);
      var c :| Marks(ever, ExecB(stmt.final, st2.(out := Running), c)) != {};
      var o := Oracle(a.now, [Sub(a, 0), Sub(a, 1), c]);
      ExecTryStmt(stmt, st, a, o);
      assert Marks(ever, Exec(stmt, st, o)) != {};
    }
  }

  lemma {:induction false} TryLeaks(ever: bool, stmt: Stmt, s: set<string>, n: nat) returns (src: Option<string>)
    requires stmt.Try? && FairStmt(stmt, n) && !Quiet(ever, stmt, s)
    ensures Unstaged(src, s) && Leaks(ever, stmt, src, n)
    decreases stmt, 0
  {
    hide Leaks, LeaksB, AbleB, TryCan;
    var f := FollowB(ever, stmt.body, s);
    if !QuietB(ever, stmt.body, s) {
      src := BlockLeaks(ever, stmt.body, s, n);
      TryBodyLeaks(ever, stmt, src, n);
    } else if f.raised.Names? && !QuietH(ever, stmt.handlers, f.raised.s) {
      var k := LoudHandler(ever, stmt.handlers, f.raised.s, n);
      var mid := BlockLeaks(ever, stmt.handlers[k].body, f.raised.s, n);
      src := BlockAble(ever, stmt.body, s, Raised, mid, n);
      TryPartLeaks(ever, stmt, true, k, src, mid, n);
    } else if !QuietFrom(ever, stmt.orelse, f.next) {
      var mid := BlockLeaks(ever, stmt.orelse, f.next.s, n);
      src := BlockAble(ever, stmt.body, s, Running, mid, n);
      TryPartLeaks(ever, stmt, false, 0, src, mid, n);
    } else {
      var pending := Pending(ever, stmt, s);
      var k := LoudFinal(ever, stmt.final, pending);
      var mid := BlockLeaks(ever, stmt.final, At(pending, k).s, n);
      src := PendingAble(ever, stmt, s, k, mid, n);
      FinalLeaks(ever, stmt, src, k, mid, n);
    }
  }

  // ----- scopes

  lemma {:induction false} ScopeLeaks(ever: bool, stmt: Stmt, s: set<string>, n: nat) returns (src: Option<string>)
    requires (stmt.Def? || stmt.Class?) && FairStmt(stmt, n) && !Quiet(ever, stmt, s)
    ensures Unstaged(src, s) && Leaks(ever, stmt, src, n)
    decreases stmt, 0
  {
    var rest := if stmt.Def? then stmt.defaults else stmt.bases;
    var mid: Option<string> := None;
    if !QuietExprs(stmt.decorators, s) {
      src := LeakSourceAll(stmt.decorators, s);
      LeakUnstagedAll(stmt.decorators, s, n);
    } else if !QuietExprs(rest, s) {
      src := LeakSourceAll(rest, s);
      LeakUnstagedAll(rest, s, n);
    } else if stmt.Def? {
      src := None;
      mid := BlockLeaks(ever, stmt.body, {}, n);
    } else {
      src := BlockLeaks(ever, stmt.body, s, n);
      mid := src;
    }
    forall st | Start(ever, st, src, {}, n) ensures exists o :: Marks(ever, Exec(stmt, st, o)) != {} {
      if !QuietExprs(stmt.decorators, s) || !QuietExprs(rest, s) {
        var o := HeadLeaks(ever, stmt, s, st, src, n);
      } else {
        var o := ScopeBodyLeaks(ever, stmt, st, src, mid, n);
      }
    }
  }

  lemma {:induction false} HeadLeaks(ever: bool, stmt: Stmt, s: set<string>, st: State, src: Option<string>, n: nat)
      returns (o: Oracle)
    requires (stmt.Def? || stmt.Class?) && FairStmt(stmt, n) && Start(ever, st, src, {}, n)
    requires var rest := if stmt.Def? then stmt.defaults else stmt.bases;
      if !QuietExprs(stmt.decorators, s) then src == LeakSourceAll(stmt.decorators, s)
      else !QuietExprs(rest, s) && src == LeakSourceAll(rest, s)
    ensures Marks(ever, Exec(stmt, st, o)) != {}
  {
    var rest := if stmt.Def? then stmt.defaults else stmt.bases;
    if !QuietExprs(stmt.decorators, s) {
      var a := ExprsLeak(ever, stmt.decorators, s, st, n);
      o := Node(OUT.path, [a]);
      MarksLater(ever, EvalAll(stmt.decorators, st, a).1,
                 EvalAll(rest, EvalAll(stmt.decorators, st, a).1, Sub(o, 1)).1);
    } else {
      var a := AllRun(stmt.decorators, st, n);
      var st1 := EvalAll(stmt.decorators, st, a).1;
      MissingLater(ever, src, st, st1, {}, {}, n);
      var b := ExprsLeak(ever, rest, s, st1, n);
      o := Node(OUT.path, [a, b]);
    }
    ScopeLater(stmt, st, o);
    MarksLater(ever, EvalAll(rest, EvalAll(stmt.decorators, st, Sub(o, 0)).1, Sub(o, 1)).1, Exec(stmt, st, o));
  }

  lemma {:induction false} ScopeLater(stmt: Stmt, st: State, o: Oracle)
    requires (stmt.Def? || stmt.Class?) && st.out.Running? && !o.now.raises
    ensures var rest := if stmt.Def? then stmt.defaults else stmt.bases;
      Later(EvalAll(rest, EvalAll(stmt.decorators, st, Sub(o, 0)).1, Sub(o, 1)).1, Exec(stmt, st, o))
  {
    assert Tick(st, o) == st;
  }

  lemma {:induction false} ScopeBodyLeaks(ever: bool, stmt: Stmt, st: State, src: Option<string>, mid: Option<string>,
                                          n: nat) returns (o: Oracle)
    requires (stmt.Def? || stmt.Class?) && FairStmt(stmt, n) && Start(ever, st, src, {}, n)
    requires LeaksB(ever, stmt.body, mid, n) && (stmt.Class? ==> mid == src)
    ensures Marks(ever, Exec(stmt, st, o)) != {}
  {
    var rest := if stmt.Def? then stmt.defaults else stmt.bases;
    var a, b := HeadAble(ever, stmt.decorators, rest, st, src, {}, n);
    var st2 := EvalAll(rest, EvalAll(stmt.decorators, st, a).1, b).1;
    StartRuns(ever, st, src, {}, n);
    StartRuns(ever, st2, src, {}, n);
    hide Ready, Missing, EvalAll, ExecB, Start;
    if stmt.Class? {
      var c :| Marks(ever, ExecB(stmt.body, st2, c)) != {};
      o := Node(OUT.path, [a, b, c]);
      ClassMarks(ever, stmt, st, o);
    } else {
      var calls := CallMarks(ever, stmt.body, st2, src, mid, n);
      o := Oracle(Calm(OUT.path).(count := 1), [a, b, calls]);
      DefMarks(ever, stmt, st, o);
    }
  }

  lemma {:induction false} CallMarks(ever: bool, body: seq<Stmt>, st: State, src: Option<string>, mid: Option<string>,
                                     n: nat) returns (calls: Oracle)
    requires LeaksB(ever, body, mid, n) && Start(ever, st, src, {}, n)
    ensures Marks(ever, RunBody(body, 1, st, calls)) != {}
  {
    var st1 := st.(env := map[], out := Running);
    NoNames(ever, st, src, mid, n);
    hide Ready, Missing, ExecB, Start;
    var c :| Marks(ever, ExecB(body, st1, c)) != {};
    calls := Node(OUT.path, [c]);
    OneCall(ever, body, st, calls);
  }

  lemma {:induction false} NoNames(ever: bool, st: State, src: Option<string>, mid: Option<string>, n: nat)
    requires Start(ever, st, src, {}, n)
    ensures Start(ever, st.(env := map[], out := Running), mid, {}, n)
  {
  }

  lemma {:induction false} ClassMarks(ever: bool, stmt: Stmt, st: State, o: Oracle)
    requires stmt.Class? && st.out.Running? && !o.now.raises
    requires Marks(ever, ExecB(stmt.body, EvalAll(stmt.bases, EvalAll(stmt.decorators, st, Sub(o, 0)).1, Sub(o, 1)).1,
                               Sub(o, 2))) != {}
    ensures Marks(ever, Exec(stmt, st, o)) != {}
  {
    assert Tick(st, o) == st;
  }

  lemma {:induction false} DefMarks(ever: bool, stmt: Stmt, st: State, o: Oracle)
    requires stmt.Def? && st.out.Running? && !o.now.raises
    requires var st2 := EvalAll(stmt.defaults, EvalAll(stmt.decorators, st, Sub(o, 0)).1, Sub(o, 1)).1;
      st2.out.Running? && Marks(ever, RunBody(stmt.body, o.now.count, st2, Sub(o, 2))) != {}
    ensures Marks(ever, Exec(stmt, st, o)) != {}
  {
    assert Tick(st, o) == st;
  }

  lemma {:induction false} OneCall(ever: bool, body: seq<Stmt>, st: State, o: Oracle)
    requires Marks(ever, ExecB(body, st.(env := o.now.env, out := Running), Sub(o, 0))) != {}
    ensures Marks(ever, RunBody(body, 1, st, o)) != {}
  {
    var st1 := ExecB(body, st.(env := o.now.env, out := Running), Sub(o, 0)).(env := st.env, out := st.out);
    assert RunBody(body, 0, st1, Sub(o, 1)) == st1;
  }

  // ----- all statements

  lemma {:induction false} StmtLeaks(ever: bool, stmt: Stmt, s: set<string>, n: nat) returns (src: Option<string>)
    requires FairStmt(stmt, n) && !Quiet(ever, stmt, s)
    ensures Unstaged(src, s) && Leaks(ever, stmt, src, n)
    decreases stmt
  {
    hide Leaks, QuietB, QuietExpr, QuietExprs, QuietItems, QuietFinal, FairB, Fair, FairAll;
    match stmt
    case With(_, _) => src := WithLeaks(ever, stmt, s, n);
    case If(_, _, _) => src := IfLeaks(ever, stmt, s, n);
    case For(_, iter, _, _) =>
      if QuietExpr(iter, s) { src := LoopLeaks(ever, stmt, s, n); } else { src := IterLeaks(ever, stmt, s, n); }
    case While(_, _, _) => src := LoopLeaks(ever, stmt, s, n);
    case Try(_, _, _, _) => src := TryLeaks(ever, stmt, s, n);
    case Def(_, _, _, _) => src := ScopeLeaks(ever, stmt, s, n);
    case Class(_, _, _, _) => src := ScopeLeaks(ever, stmt, s, n);
    case _ => src := SimpleLeaks(ever, stmt, s, n);
  }
}
