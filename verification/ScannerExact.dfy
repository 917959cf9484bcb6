/** When the scanner's silence means that only private staging paths are truncated: exactly when the reference is
    silent too, for programs and for each statement. */
module ScannerExact {
  import opened Common
  import opened PurePaths
  import opened PyAst
  import opened WriteScanner
  import opened PyRuns
  import opened StagingFlow
  import opened FlowSoundness
  import opened RunSoundness
  import opened RunsInside
  import opened PyLiterals
  import opened RunWitness
  import opened StmtWitness
  import opened RunExactness
  import opened LeakExactness

  // ----- programs

  /** No run truncates a path outside the private places that count. */
  ghost predicate Safe(ever: bool, program: seq<Stmt>) {
    forall o :: Marks(ever, Run(program, o)) == {}
  }

  /** The reference decides safety, on every program; `n` is any bound on the lengths of its literals. */
  lemma {:induction false} ProgramExact(ever: bool, program: seq<Stmt>, n: nat)
    requires FairB(program, n)
    ensures Safe(ever, program) <==> QuietB(ever, program, {})
  {
    if QuietB(ever, program, {}) {
      forall o ensures Marks(ever, Run(program, o)) == {} { QuietMeansStaged(ever, program, o); }
    } else {
      var src := BlockLeaks(ever, program, {}, n);
      assert Start(ever, START, src, {}, n);
      var o :| Marks(ever, ExecB(program, START, o)) != {};
      assert Marks(ever, Run(program, o)) != {};
    }
  }

  // ----- statements

  /** The scanner's handling of a statement is right: from every state in which the staged names are private, no run
      truncates a path outside, and if it ends normally the names of the scanner's exit set are private. */
  ghost predicate Handled(ever: bool, stmt: Stmt, staged: set<string>) {
    forall st: State, o: Oracle | st.out.Running? && Consistent(ever, st, staged, {}) ::
      HandledOn(ever, stmt, staged, st, o)
  }

  ghost predicate HandledOn(ever: bool, stmt: Stmt, staged: set<string>, st: State, o: Oracle) {
    var end := Exec(stmt, st, o);
    Marks(ever, end) == Marks(ever, st) && (end.out.Running? ==> Consistent(ever, end, Exit(stmt, staged), {}))
  }

  /** The reference is quiet about the statement and promises what the scanner goes on trusting. */
  predicate Agrees(ever: bool, stmt: Stmt, staged: set<string>) {
    Quiet(ever, stmt, staged)
    && (Follow(ever, stmt, staged).next.Names? ==> Exit(stmt, staged) <= Follow(ever, stmt, staged).next.s)
  }

  /** A state with one private place in which exactly the given names are bound, all to that place. */
  lemma {:induction false} FittingState(ever: bool, staged: set<string>, n: nat) returns (st: State)
    ensures Ready(st, n) && Consistent(ever, st, staged, {}) && Marks(ever, st) == {} && st.env.Keys == staged
  {
    var name := LongName({}, n);
    var root := Path(true, [name]);
    st := State(map x | x in staged :: Place(root), {root}, {}, {}, {}, Running);
    assert Under(root, root);
    assert root in Counted(ever, st, {});
    assert InRoots(root, Counted(ever, st, {}));
  }

  lemma {:induction false} AgreeingHandled(ever: bool, stmt: Stmt, staged: set<string>)
    requires Agrees(ever, stmt, staged)
    ensures Handled(ever, stmt, staged)
  {
    hide Exec, Follow, Quiet, Exit;
    forall st: State, o: Oracle | st.out.Running? && Consistent(ever, st, staged, {})
      ensures HandledOn(ever, stmt, staged, st, o)
    {
      StmtInside(ever, stmt, staged, st, o);
      StmtFits(ever, stmt, staged, st, o, {});
    }
  }

  lemma {:induction false} LoudNotHandled(ever: bool, stmt: Stmt, staged: set<string>, n: nat)
    requires FairStmt(stmt, n) && !Quiet(ever, stmt, staged)
    ensures !Handled(ever, stmt, staged)
  {
    hide Exec, Follow, Quiet, Exit;
    var st := FittingState(ever, staged, n);
    var src := StmtLeaks(ever, stmt, staged, n);
    assert Start(ever, st, src, {}, n);
    var o :| Marks(ever, Exec(stmt, st, o)) != {};
    assert !HandledOn(ever, stmt, staged, st, o);
  }

  lemma {:induction false} LosingNotHandled(ever: bool, stmt: Stmt, staged: set<string>, x: string, n: nat)
    requires FairStmt(stmt, n) && Follow(ever, stmt, staged).next.Names?
    requires x in Exit(stmt, staged) && x !in Follow(ever, stmt, staged).next.s
    ensures !Handled(ever, stmt, staged)
  {
    hide Exec, Follow, Quiet, Exit;
    var st := FittingState(ever, staged, n);
    var src := StmtAble(ever, stmt, staged, Running, Some(x), n);
    assert Start(ever, st, src, {}, n);
    var o :| EndsIn(ever, Exec(stmt, st, o), Running, Some(x), {}, n);
    assert !Consistent(ever, Exec(stmt, st, o), Exit(stmt, staged), {});
    assert !HandledOn(ever, stmt, staged, st, o);
  }

  /** For every statement the scanner's handling is right if and only if the reference agrees. */
  lemma {:induction false} StatementExact(ever: bool, stmt: Stmt, staged: set<string>, n: nat)
    requires FairStmt(stmt, n)
    ensures Handled(ever, stmt, staged) <==> Agrees(ever, stmt, staged)
  {
    hide Follow, Quiet, Exit, Handled;
    if Agrees(ever, stmt, staged) {
      AgreeingHandled(ever, stmt, staged);
    } else if !Quiet(ever, stmt, staged) {
      LoudNotHandled(ever, stmt, staged, n);
    } else {
      var x :| x in Exit(stmt, staged) && x !in Follow(ever, stmt, staged).next.s;
      LosingNotHandled(ever, stmt, staged, x, n);
    }
  }
}
