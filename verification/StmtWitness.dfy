/** Building runs of simple statements that end in a given way, with a given name holding a path outside. */
module StmtWitness {
  import opened Common
  import opened PurePaths
  import opened PyAst
  import opened WriteScanner
  import opened PyRuns
  import opened StagingFlow
  import opened FlowSoundness
  import opened PyLiterals
  import opened RunWitness
  import opened ExprWitness

  ghost predicate Start(ever: bool, st: State, src: Option<string>, gone: set<Path>, n: nat) {
    Ready(st, n) && gone <= st.made && Missing(ever, st, src, gone)
  }

  ghost predicate EndsIn(ever: bool, st: State, out: Outcome, goal: Option<string>, gone: set<Path>, n: nat) {
    st.out == out && Ready(st.(out := Running), n) && Missing(ever, st, goal, gone)
  }

  /** From every state in which `src` is outside the statement can end in `out` with `goal` outside. */
  ghost predicate Able(ever: bool, stmt: Stmt, src: Option<string>, out: Outcome, goal: Option<string>, n: nat) {
    forall st, gone | Start(ever, st, src, gone, n) :: exists o :: EndsIn(ever, Exec(stmt, st, o), out, goal, gone, n)
  }

  ghost predicate AbleB(ever: bool, block: seq<Stmt>, src: Option<string>, out: Outcome, goal: Option<string>, n: nat) {
    forall st, gone | Start(ever, st, src, gone, n) :: exists o :: EndsIn(ever, ExecB(block, st, o), out, goal, gone, n)
  }

  /** A way to end that the reference allows, with a name that it does not promise. */
  predicate Wanted(f: Flow, out: Outcome, goal: Option<string>) {
    At(f, out).Names? && (goal.Some? ==> goal.value !in At(f, out).s)
  }

  /** A name that has to be outside before for another to be outside after; none if none is asked for. */
  predicate Before(src: Option<string>, goal: Option<string>, s: set<string>) {
    Unstaged(src, s) && (goal.None? ==> src.None?)
  }

  const FAIL := Oracle(Calm(OUT.path).(raises := true), [])

  /** Any statement can raise at once. */
  lemma {:induction false} RaiseAble(ever: bool, stmt: Stmt, goal: Option<string>, n: nat)
    ensures Able(ever, stmt, goal, Raised, goal, n)
  {
    forall st, gone | Start(ever, st, goal, gone, n)
      ensures exists o :: EndsIn(ever, Exec(stmt, st, o), Raised, goal, gone, n)
    {
      assert EndsIn(ever, Exec(stmt, st, FAIL), Raised, goal, gone, n);
    }
  }

  // ----- simple statements

  lemma {:induction false} BindsLost(ever: bool, targets: seq<Target>, v: Value, st: State, o: Oracle,
                                     x: Option<string>, gone: set<Path>, n: nat)
    requires Ready(st, n) && Tame(v, st.made, n) && o == QUIET
    requires if x.Some? && x.value in BoundNamesOf(targets) then Lost(v, Counted(ever, st, gone))
             else Missing(ever, st, x, gone)
    ensures Ready(BindAll(targets, v, st, o), n) && Missing(ever, BindAll(targets, v, st, o), x, gone)
    decreases targets
  {
    if targets != [] {
      CountedRoots(ever, st, gone, n);
      OutLost(Counted(ever, st, gone), st.made, n);
      var st1 := BindTo(targets[0], v, st, o.now.pick);
      assert Sub(o, 0) == QUIET;
      if x.Some? && x.value !in BoundNamesOf(targets[1..]) { assert Missing(ever, st1, x, gone); }
      BindsLost(ever, targets[1..], v, st1, Sub(o, 0), x, gone, n);
    }
  }

  lemma {:induction false} TargetNames(s: set<string>, targets: seq<Target>, isStaged: bool)
    ensures BindTargets(s, targets, isStaged)
      == if isStaged then s + BoundNamesOf(targets) else s - BoundNamesOf(targets)
    decreases targets
  {
    if targets != [] {
      TargetNames(Rebound(s, BoundNames(targets[0]), isStaged), targets[1..], isStaged);
    }
  }

  lemma {:induction false} AssignAble(ever: bool, stmt: Stmt, s: set<string>, goal: Option<string>, n: nat)
      returns (src: Option<string>)
    requires stmt.Assign? && FairStmt(stmt, n) && Wanted(Follow(ever, stmt, s), Running, goal)
    ensures Before(src, goal, s) && Able(ever, stmt, src, Running, goal, n)
  {
    var value, targets := stmt.value, stmt.targets;
    TargetNames(s, targets, IsStagingExpr(value, s));
    var bound := goal.Some? && goal.value in BoundNamesOf(targets);
    if bound {
      SourceUnstaged(value, s);
      src := LossSource(value, s);
    } else {
      src := goal;
    }
    forall st, gone | Start(ever, st, src, gone, n)
      ensures exists o :: EndsIn(ever, Exec(stmt, st, o), Running, goal, gone, n)
    {
      var a;
      if bound {
        a := EvalLoses(ever, value, s, st, gone, n);
      } else {
        a := EvalRuns(value, st, n);
        MissingLater(ever, goal, st, Eval(value, st, a).1, gone, gone, n);
      }
      var o := Node(OUT.path, [a, QUIET]);
      var (v, st1) := Eval(value, st, a);
      BindsLost(ever, targets, v, st1, QUIET, goal, gone, n);
      assert Exec(stmt, st, o) == BindAll(targets, v, st1, QUIET);
      assert EndsIn(ever, Exec(stmt, st, o), Running, goal, gone, n);
    }
  }

  /** Binding any values to names: all of them can be outside. */
  lemma {:induction false} AnyLost(ever: bool, names: set<string>, st: State, o: Oracle, goal: Option<string>,
                                   gone: set<Path>, n: nat)
    requires Ready(st, n) && o.now.pick == QUIET.now.pick
    requires goal.Some? && goal.value !in names ==> Missing(ever, st, goal, gone)
    ensures Ready(BindAny(names, st, o), n) && Missing(ever, BindAny(names, st, o), goal, gone)
  {
    CountedRoots(ever, st, gone, n);
    OutLost(Counted(ever, st, gone), st.made, n);
  }

  lemma {:induction false} RebindAble(ever: bool, stmt: Stmt, s: set<string>, goal: Option<string>, n: nat)
      returns (src: Option<string>)
    requires stmt.Rebind? && FairStmt(stmt, n) && Wanted(Follow(ever, stmt, s), Running, goal)
    ensures Before(src, goal, s) && Able(ever, stmt, src, Running, goal, n)
  {
    src := if goal.Some? && goal.value in stmt.names then None else goal;
    forall st, gone | Start(ever, st, src, gone, n)
      ensures exists o :: EndsIn(ever, Exec(stmt, st, o), Running, goal, gone, n)
    {
      var a := AllRun(stmt.exprs, st, n);
      var o := Node(OUT.path, [a]);
      var st1 := EvalAll(stmt.exprs, st, a).1;
      MissingLater(ever, src, st, st1, gone, gone, n);
      AnyLost(ever, stmt.names, st1, o, goal, gone, n);
      assert EndsIn(ever, Exec(stmt, st, o), Running, goal, gone, n);
    }
  }

  /** Statements that bind nothing. */
  lemma {:induction false} PlainAble(ever: bool, stmt: Stmt, s: set<string>, out: Outcome, goal: Option<string>, n: nat)
    requires FairStmt(stmt, n) && Wanted(Follow(ever, stmt, s), out, goal)
    requires stmt.AnnOnly? || stmt.Break? || stmt.Continue? || stmt.ExprStmt? || stmt.Return? || stmt.Raise?
    ensures Before(goal, goal, s) && Able(ever, stmt, goal, out, goal, n)
  {
    if out.Raised? {
      RaiseAble(ever, stmt, goal, n);
    } else {
      forall st, gone | Start(ever, st, goal, gone, n)
        ensures exists o :: EndsIn(ever, Exec(stmt, st, o), out, goal, gone, n)
      {
        if stmt.ExprStmt? || stmt.Return? {
          var a := EvalRuns(stmt.expr, st, n);
          MissingLater(ever, goal, st, Eval(stmt.expr, st, a).1, gone, gone, n);
          assert EndsIn(ever, Exec(stmt, st, Node(OUT.path, [a])), out, goal, gone, n);
        } else {
          assert EndsIn(ever, Exec(stmt, st, QUIET), out, goal, gone, n);
        }
      }
    }
  }
}
