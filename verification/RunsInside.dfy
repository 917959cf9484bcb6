/** A run of a quiet statement, block or program truncates nothing outside the private places. */
module RunsInside {
  import opened PyAst
  import opened WriteScanner
  import opened PyRuns
  import opened StagingFlow
  import opened FlowSoundness
  import opened RunSoundness

  lemma {:induction false} StmtInside(ever: bool, stmt: Stmt, s: set<string>, start: State, o: Oracle)
    requires start.out.Running? && Consistent(ever, start, s, {}) && Quiet(ever, stmt, s)
    ensures Marks(ever, Exec(stmt, start, o)) == Marks(ever, start)
    decreases stmt
  {
    hide Eval, EvalAll, ExecB, ExecLoop, ExecTry, ExecDef, ExecClass, Enter, Leave, LoopNames, FollowB, QuietExpr,
         QuietB, Pending, WithFlow, FinalFlow;
    var st := Tick(start, o);
    assert Consistent(ever, st, s, {});
    if st.out.Running? {
      match stmt
      case With(_, _) => WithInside(ever, stmt, s, st, o);
      case If(_, _, _) => IfInside(ever, stmt, s, st, o);
      case For(_, _, _, _) => ForInside(ever, stmt, s, st, o);
      case While(_, _, _) => WhileInside(ever, stmt, s, st, o);
      case Try(_, _, _, _) => TryInside(ever, stmt, s, st, o);
      case Def(_, _, _, _) => DefInside(ever, stmt, s, st, o);
      case Class(_, _, _, _) => ClassInside(ever, stmt, s, st, o);
      case _ => SimpleInside(ever, stmt, s, start, o);
    }
  }

  lemma {:induction false} SimpleInside(ever: bool, stmt: Stmt, s: set<string>, start: State, o: Oracle)
    requires start.out.Running? && Consistent(ever, start, s, {}) && Quiet(ever, stmt, s)
    requires stmt.AnnOnly? || stmt.Break? || stmt.Continue? || stmt.ExprStmt? || stmt.Return? || stmt.Raise?
             || stmt.Rebind? || stmt.Assign?
    ensures Marks(ever, Exec(stmt, start, o)) == Marks(ever, start)
  {
    hide Eval, EvalAll, QuietExpr;
    var st := Tick(start, o);
    if st.out.Running? {
      match stmt
      case ExprStmt(e) => ExprInside(ever, e, s, st, Sub(o, 0));
      case Return(e) => ExprInside(ever, e, s, st, Sub(o, 0));
      case Raise(e) => ExprInside(ever, e, s, st, Sub(o, 0));
      case Rebind(_, exprs) => ExprsInside(ever, exprs, s, st, Sub(o, 0));
      case Assign(_, value) => ExprInside(ever, value, s, st, Sub(o, 0));
      case _ =>
    }
  }

  lemma {:induction false} ItemsInside(ever: bool, items: seq<WithItem>, s: set<string>, st: State, o: Oracle)
    requires Consistent(ever, st, s, {}) && QuietItems(items, s)
    ensures Marks(ever, Enter(items, st, o).st) == Marks(ever, st)
    decreases items
  {
    if items != [] && st.out.Running? {
      var item := items[0];
      ExprInside(ever, item.context, s, st, Sub(o, 0));
      var (v, st0) := Eval(item.context, st, Sub(o, 0));
      var st1 := Tick(st0, o);
      if st1.out.Running? {
        EnterFirst(ever, true, item, s, st, o, {});
        var w := if IsBinderCall(item.context) then v else o.now.value;
        ItemsInside(ever, items[1..], EnterOne(true, item, s), BindTo(item.target, w, st1, o.now.pick), Sub(o, 1));
      }
    }
  }

  /** Inside a `with` its places exist: the body is judged with the names of its binders trusted. */
  lemma {:induction false} WithInside(ever: bool, stmt: Stmt, s: set<string>, st: State, o: Oracle)
    requires stmt.With? && st.out.Running? && Consistent(ever, st, s, {}) && Quiet(ever, stmt, s)
    ensures var r := Enter(stmt.items, st, Sub(o, 0));
      Marks(ever, Leave(r, ExecB(stmt.body, r.st, Sub(o, 1)), Sub(o, 2))) == Marks(ever, st)
    decreases stmt, 0
  {
    var r := Enter(stmt.items, st, Sub(o, 0));
    ItemsInside(ever, stmt.items, s, st, Sub(o, 0));
    EnterFits(ever, true, stmt.items, s, st, Sub(o, 0), {});
    if r.st.out.Running? {
      BlockInside(ever, stmt.body, AfterEnter(true, stmt.items, s), r.st, Sub(o, 1));
    }
  }

  lemma {:induction false} IfInside(ever: bool, stmt: Stmt, s: set<string>, st: State, o: Oracle)
    requires stmt.If? && st.out.Running? && Consistent(ever, st, s, {}) && Quiet(ever, stmt, s)
    ensures Marks(ever, ExecB(if o.now.branch then stmt.body else stmt.orelse, Eval(stmt.test, st, Sub(o, 0)).1,
                              Sub(o, 1))) == Marks(ever, st)
    decreases stmt, 0
  {
    ExprInside(ever, stmt.test, s, st, Sub(o, 0));
    var st1 := Eval(stmt.test, st, Sub(o, 0)).1;
    ConsistentLater(ever, st, st1, s, {});
    if st1.out.Running? {
      BlockInside(ever, if o.now.branch then stmt.body else stmt.orelse, s, st1, Sub(o, 1));
    }
  }

  lemma {:induction false} BlockInside(ever: bool, block: seq<Stmt>, s: set<string>, st: State, o: Oracle)
    requires st.out.Running? && Consistent(ever, st, s, {}) && QuietB(ever, block, s)
    ensures Marks(ever, ExecB(block, st, o)) == Marks(ever, st)
    decreases block, 0
  {
    if block != [] {
      StmtInside(ever, block[0], s, st, Sub(o, 0));
      StmtFits(ever, block[0], s, st, Sub(o, 0), {});
      var st1 := Exec(block[0], st, Sub(o, 0));
      if st1.out.Running? {
        BlockInside(ever, block[1..], Follow(ever, block[0], s).next.s, st1, Sub(o, 1));
      }
    }
  }

  lemma {:induction false} RoundsInside(ever: bool, targets: set<string>, tests: seq<Expr>, body: seq<Stmt>,
                                        head: set<string>, count: nat, start: State, o: Oracle)
    requires start.out.Running? && Consistent(ever, start, head, {})
    requires Kept(head, FollowB(ever, body, head - targets)) == head
    requires QuietExprs(tests, head) && QuietB(ever, body, head - targets)
    ensures Marks(ever, ExecLoop(targets, tests, body, count, start, o)) == Marks(ever, start)
    decreases body, 1, count
  {
    ExprsInside(ever, tests, head, start, Sub(o, 0));
    var st := Tick(EvalAll(tests, start, Sub(o, 0)).1, o);
    if count > 0 && st.out.Running? {
      var st0 := BindAny(targets, st, o);
      AnyBound(ever, targets, head, st, o, {});
      BlockInside(ever, body, head - targets, st0, Sub(o, 1));
      BlockFits(ever, body, head - targets, st0, Sub(o, 1), {});
      var st1 := ExecB(body, st0, Sub(o, 1));
      if st1.out.Running? || st1.out.Continued? {
        RoundsInside(ever, targets, tests, body, head, count - 1, st1.(out := Running), Sub(o, 2));
      }
    }
  }

  lemma {:induction false} LoopInside(ever: bool, loop: Stmt, targets: set<string>, tests: seq<Expr>, s: set<string>,
                                      st: State, o: Oracle)
    requires (loop.For? || loop.While?) && st.out.Running? && Consistent(ever, st, s, {})
    requires var head := LoopNames(ever, targets, loop.body, s);
      QuietExprs(tests, head) && QuietB(ever, loop.body, head - targets) && QuietB(ever, loop.orelse, head)
    ensures Marks(ever, AfterLoop(loop.orelse, ExecLoop(targets, tests, loop.body, o.now.count, st, Sub(o, 1)),
                                  Sub(o, 2))) == Marks(ever, st)
    decreases loop, 0
  {
    var head := LoopNames(ever, targets, loop.body, s);
    Fewer(ever, st, s, head, {});
    LoopFixed(ever, targets, loop.body, s);
    RoundsInside(ever, targets, tests, loop.body, head, o.now.count, st, Sub(o, 1));
    RoundsFit(ever, targets, tests, loop.body, head, o.now.count, st, Sub(o, 1), {});
    var st1 := ExecLoop(targets, tests, loop.body, o.now.count, st, Sub(o, 1));
    if st1.out.Running? {
      BlockInside(ever, loop.orelse, head, st1, Sub(o, 2));
    }
  }

  lemma {:induction false} ForInside(ever: bool, stmt: Stmt, s: set<string>, st: State, o: Oracle)
    requires stmt.For? && st.out.Running? && Consistent(ever, st, s, {}) && Quiet(ever, stmt, s)
    ensures var st1 := Eval(stmt.iter, st, Sub(o, 0)).1;
      Marks(ever, AfterLoop(stmt.orelse, ExecLoop(BoundNames(stmt.target), [], stmt.body, o.now.count, st1, Sub(o, 1)),
                            Sub(o, 2))) == Marks(ever, st)
    decreases stmt, 1
  {
    ExprInside(ever, stmt.iter, s, st, Sub(o, 0));
    var st1 := Eval(stmt.iter, st, Sub(o, 0)).1;
    ConsistentLater(ever, st, st1, s, {});
    if st1.out.Running? {
      LoopInside(ever, stmt, BoundNames(stmt.target), [], s, st1, o);
    }
  }

  lemma {:induction false} WhileInside(ever: bool, stmt: Stmt, s: set<string>, st: State, o: Oracle)
    requires stmt.While? && st.out.Running? && Consistent(ever, st, s, {}) && Quiet(ever, stmt, s)
    ensures Marks(ever, AfterLoop(stmt.orelse, ExecLoop({}, [stmt.test], stmt.body, o.now.count, st, Sub(o, 1)),
                                  Sub(o, 2))) == Marks(ever, st)
    decreases stmt, 1
  {
    var head := LoopNames(ever, {}, stmt.body, s);
    assert head - {} == head && [stmt.test][1..] == [];
    LoopInside(ever, stmt, {}, [stmt.test], s, st, o);
  }

  lemma {:induction false} HandlerInside(ever: bool, handlers: seq<Handler>, k: nat, s: set<string>, st: State,
                                         o: Oracle)
    requires k < |handlers| && st.out.Running? && Consistent(ever, st, s, {}) && QuietH(ever, handlers, s)
    ensures Marks(ever, ExecB(handlers[k].body, st, o)) == Marks(ever, st)
    decreases handlers, 0
  {
    if k == 0 {
      BlockInside(ever, handlers[0].body, s, st, o);
    } else {
      HandlerInside(ever, handlers[1..], k - 1, s, st, o);
    }
  }

  lemma {:induction false} PendingInside(ever: bool, stmt: Stmt, s: set<string>, st: State, o: Oracle)
    requires stmt.Try? && st.out.Running? && Consistent(ever, st, s, {}) && Quiet(ever, stmt, s)
    ensures Marks(ever, ExecTry(stmt, st, o)) == Marks(ever, st)
    decreases stmt, 0
  {
    var f := FollowB(ever, stmt.body, s);
    BlockFits(ever, stmt.body, s, st, Sub(o, 0), {});
    BlockInside(ever, stmt.body, s, st, Sub(o, 0));
    var st1 := ExecB(stmt.body, st, Sub(o, 0));
    if st1.out.Raised? && stmt.handlers != [] && o.now.branch {
      var k := o.now.count % |stmt.handlers|;
      HandlerInside(ever, stmt.handlers, k, f.raised.s, st1.(out := Running), Sub(o, 1));
    } else if st1.out.Running? {
      BlockInside(ever, stmt.orelse, f.next.s, st1, Sub(o, 1));
    }
  }

  lemma {:induction false} QuietAfter(ever: bool, final: seq<Stmt>, pending: Flow, out: Outcome)
    requires QuietFinal(ever, final, pending)
    ensures QuietFrom(ever, final, At(pending, out))
  {
  }

  lemma {:induction false} TryInside(ever: bool, stmt: Stmt, s: set<string>, st: State, o: Oracle)
    requires stmt.Try? && st.out.Running? && Consistent(ever, st, s, {}) && Quiet(ever, stmt, s)
    ensures var st2 := ExecTry(stmt, st, o);
      Marks(ever, Finally(st2, ExecB(stmt.final, st2.(out := Running), Sub(o, 2)))) == Marks(ever, st)
    decreases stmt, 1
  {
    PendingFits(ever, stmt, s, st, o, {});
    PendingInside(ever, stmt, s, st, o);
    var st2 := ExecTry(stmt, st, o);
    var m := At(Pending(ever, stmt, s), st2.out);
    QuietAfter(ever, stmt.final, Pending(ever, stmt, s), st2.out);
    BlockInside(ever, stmt.final, m.s, st2.(out := Running), Sub(o, 2));
  }

  /** Later calls of a function: whatever its names then hold. */
  lemma {:induction false} CallsInside(ever: bool, body: seq<Stmt>, count: nat, st: State, o: Oracle)
    requires QuietB(ever, body, {})
    ensures Marks(ever, RunBody(body, count, st, o)) == Marks(ever, st)
    decreases body, 1, count
  {
    if count > 0 {
      var st0 := st.(env := o.now.env, out := Running);
      BlockInside(ever, body, {}, st0, Sub(o, 0));
      CallsInside(ever, body, count - 1, ExecB(body, st0, Sub(o, 0)).(env := st.env, out := st.out), Sub(o, 1));
    }
  }

  lemma {:induction false} DefInside(ever: bool, stmt: Stmt, s: set<string>, st: State, o: Oracle)
    requires stmt.Def? && st.out.Running? && Consistent(ever, st, s, {}) && Quiet(ever, stmt, s)
    ensures Marks(ever, ExecDef(stmt, st, o)) == Marks(ever, st)
    decreases stmt, 0
  {
    ExprsInside(ever, stmt.decorators, s, st, Sub(o, 0));
    var st1 := EvalAll(stmt.decorators, st, Sub(o, 0)).1;
    ExprsInside(ever, stmt.defaults, s, st1, Sub(o, 1));
    var st2 := EvalAll(stmt.defaults, st1, Sub(o, 1)).1;
    if st2.out.Running? {
      CallsInside(ever, stmt.body, o.now.count, st2, Sub(o, 2));
    }
  }

  lemma {:induction false} ClassInside(ever: bool, stmt: Stmt, s: set<string>, st: State, o: Oracle)
    requires stmt.Class? && st.out.Running? && Consistent(ever, st, s, {}) && Quiet(ever, stmt, s)
    ensures Marks(ever, ExecClass(stmt, st, o)) == Marks(ever, st)
    decreases stmt, 0
  {
    ExprsInside(ever, stmt.decorators, s, st, Sub(o, 0));
    var st1 := EvalAll(stmt.decorators, st, Sub(o, 0)).1;
    ExprsInside(ever, stmt.bases, s, st1, Sub(o, 1));
    var st2 := EvalAll(stmt.bases, st1, Sub(o, 1)).1;
    if st2.out.Running? {
      BlockInside(ever, stmt.body, s, st2, Sub(o, 2));
    }
  }

  /** No run of a quiet program truncates anything outside the private places that count. */
  lemma {:induction false} QuietMeansStaged(ever: bool, program: seq<Stmt>, o: Oracle)
    requires QuietB(ever, program, {})
    ensures Marks(ever, Run(program, o)) == {}
  {
    BlockInside(ever, program, {}, START, o);
  }
}
