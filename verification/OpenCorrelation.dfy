/** Why no analysis that keeps its facts name by name decides every `.open`: what matters can be a fact about two
    names. */
module OpenCorrelation {
  import opened PurePaths
  import opened PyAst
  import opened PyRuns
  import opened FlowSoundness
  import opened RunWitness
  import opened ScannerExact
  import opened ScannerGaps
  import opened CallExactness

  /** Either `x` may be anything and `y` is staged, or `x` is a path and `y` is not staged. */
  function Either(x: string, y: string, stage: Expr, a: string, b: string): Stmt {
    If(Const, [Set(x, Const), Set(y, stage)], [Set(x, Str(a)), Set(y, Str(b))])
  }

  /** `x.open(y, mode)`: it truncates `y` if `x` is no path, and nothing if it is. */
  function OpenOf(x: string, y: string, mode: string, line: nat): Expr {
    Call(Attribute(Name(x), "open"), [Name(y), Str(mode)], [], line)
  }

  lemma {:induction false} TwoRun(p: Stmt, q: Stmt, st: State, o: Oracle)
    ensures ExecB([p, q], st, o) ==
      if !st.out.Running? then st
      else
        var mid := Exec(p, st, Sub(o, 0));
        if mid.out.Running? then Exec(q, mid, Sub(Sub(o, 1), 0)) else mid
  {
    var rest := [q];
    assert [p, q][1..] == rest && rest[1..] == [];
    var mid := Exec(p, st, Sub(o, 0));
    if st.out.Running? && mid.out.Running? {
      var end := Exec(q, mid, Sub(Sub(o, 1), 0));
      assert ExecB([], end, Sub(Sub(o, 1), 1)) == end;
      assert ExecB(rest, mid, Sub(o, 1)) == end;
    }
  }

  lemma {:induction false} SetEnds(x: string, value: Expr, st: State, o: Oracle)
    requires st.out.Running?
    ensures var st1 := Tick(st, o);
      Exec(Set(x, value), st, o) ==
        if !st1.out.Running? then st1
        else
          var (v, st2) := Eval(value, st1, Sub(o, 0));
          if st2.out.Running? then st2.(env := st2.env[x := v]) else st2
  {
    var targets, st1 := [NameTarget(x)], Tick(st, o);
    assert targets[1..] == [];
    var (v, st2) := Eval(value, st1, Sub(o, 0));
    var bound := BindTo(targets[0], v, st2, Sub(o, 1).now.pick);
    assert BoundNames(targets[0]) == {x} && bound.env == st2.env[x := v];
    assert BindAll(targets, v, st2, Sub(o, 1)) == BindAll([], v, bound, Sub(Sub(o, 1), 0));
  }

  lemma {:induction false} EitherRun(x: string, y: string, stage: Expr, a: string, b: string, st: State, o: Oracle)
    requires st.out.Running?
    ensures var st1 := Tick(st, o);
      Exec(Either(x, y, stage, a, b), st, o) ==
        if !st1.out.Running? then st1
        else ExecB(if o.now.branch then [Set(x, Const), Set(y, stage)] else [Set(x, Str(a)), Set(y, Str(b))],
                   st1, Sub(o, 1))
  {
    assert Eval(Const, Tick(st, o), Sub(o, 0)).1 == Tick(st, o);
  }

  ghost predicate Guarded(ever: bool, st: State, x: string, y: string) {
    x in st.env && (st.env[x].Place? || (y in st.env && Private(st.env[y], Counted(ever, st, {}))))
  }

  /** After either branch `x` is a path or `y` is private. */
  lemma {:induction false} EitherGuards(ever: bool, x: string, y: string, stage: Expr, a: string, b: string, o: Oracle)
    requires IsStage(stage) && x != y
    ensures var st := Exec(Either(x, y, stage, a, b), START, o);
      Marks(ever, st) == {} && (st.out.Running? ==> Guarded(ever, st, x, y))
  {
    EitherRun(x, y, stage, a, b, START, o);
    var st1 := Tick(START, o);
    if st1.out.Running? {
      var p, q := if o.now.branch then Const else Str(a), if o.now.branch then stage else Str(b);
      TwoRun(Set(x, p), Set(y, q), st1, Sub(o, 1));
      SetEnds(x, p, st1, Sub(Sub(o, 1), 0));
      var mid := Exec(Set(x, p), st1, Sub(Sub(o, 1), 0));
      if mid.out.Running? { SecondSet(ever, x, y, q, mid, Sub(Sub(Sub(o, 1), 1), 0)); }
    }
  }

  lemma {:induction false} SecondSet(ever: bool, x: string, y: string, q: Expr, st: State, o: Oracle)
    requires st.out.Running? && x in st.env && x != y && ((q.Str? && st.env[x].Place?) || IsStage(q))
    ensures var r := Exec(Set(y, q), st, o);
      Marks(ever, r) == Marks(ever, st) && (r.out.Running? ==> Guarded(ever, r, x, y))
  {
    SetEnds(y, q, st, o);
    var st1 := Tick(st, o);
    if st1.out.Running? {
      var (v, st2) := Eval(q, st1, Sub(o, 0));
      if IsStage(q) {
        StageRun(q, st1, Sub(o, 0));
        if st2.out.Running? {
          assert Under(v.path, v.path) && v.path in Counted(ever, st2, {});
        }
      }
    }
  }

  lemma {:induction false} StageRun(stage: Expr, st: State, o: Oracle)
    requires IsStage(stage) && st.out.Running?
    ensures var (v, r) := Eval(stage, st, o);
      r.published == st.published && r.stray == st.stray
  {
    CallEvaluates(stage, st, o);
    assert Truncated(stage, Eval(stage.func, st, Sub(o, 0)).0, [], []) == Other;
  }

  /** The call truncates nothing outside, whichever branch was taken. */
  lemma {:induction false} GuardedOpen(ever: bool, x: string, y: string, mode: string, line: nat, st: State, o: Oracle)
    requires Guarded(ever, st, x, y) && st.out.Running? && x !in {"io", "builtins"}
    ensures Marks(ever, Eval(OpenOf(x, y, mode, line), st, o).1) == Marks(ever, st)
  {
    var call := OpenOf(x, y, mode, line);
    var args := call.args;
    assert args[1..] == [Str(mode)] && args[1..][1..] == [];
    var (vs, st1) := EvalAll(args, st, Sub(o, 1));
    assert st1 == st && (y in st.env ==> vs[0] == st.env[y]) by {
      assert EvalAll(args[1..][1..], st, Sub(Sub(Sub(o, 1), 1), 1)) == ([], st);
      assert Eval(Str(mode), st, Sub(Sub(Sub(o, 1), 1), 0)).1 == st;
      assert EvalAll(args[1..], st, Sub(Sub(o, 1), 1)).1 == st;
      assert Eval(args[0], st, Sub(Sub(o, 1), 0)).1 == st;
    }
    assert Receiver(call) == Name(x) && Eval(Name(x), st, Sub(o, 0)) == (st.env[x], st);
    CallEvaluates(call, st, o);
    hide Eval, EvalAll;
    var v := Truncated(call, st.env[x], vs, []);
    assert v.Place? ==> Private(v, Counted(ever, st, {}));
    WriteInside(ever, v, st);
    ResultMarks(ever, call, vs, Tick(WriteTo(v, st), o), o);
  }

  lemma {:induction false} ResultMarks(ever: bool, call: Expr, args: seq<Value>, st: State, o: Oracle)
    requires call.Call? && |args| == |call.args|
    ensures Marks(ever, Result(call, args, st, o).1) == Marks(ever, st)
  {
  }

  /** The states in which the call is reached. */
  ghost predicate Reached(st: State, x: string, y: string, stage: Expr, a: string, b: string) {
    st.out.Running? && exists o :: st == Exec(Either(x, y, stage, a, b), START, o)
  }

  ghost predicate NoPath(st: State, x: string) {
    x in st.env && st.env[x].Other?
  }

  ghost predicate Outside(st: State, y: string) {
    y in st.env && st.env[y].Place? && !InRoots(st.env[y].path, st.made)
  }

  lemma {:induction false} ReachedWithoutPath(x: string, y: string, stage: Expr, a: string, b: string)
      returns (st: State)
    requires IsStage(stage) && x != y
    ensures Reached(st, x, y, stage, a, b) && NoPath(st, x)
  {
    var now := Calm(Path(true, ["p"])).(branch := true, value := Other);
    var o := Oracle(now, []);
    assert forall k: nat :: Sub(o, k) == o;
    st := Exec(Either(x, y, stage, a, b), START, o);
    EitherRun(x, y, stage, a, b, START, o);
    TwoRun(Set(x, Const), Set(y, stage), START, o);
    SetEnds(x, Const, START, o);
    var mid := Exec(Set(x, Const), START, o);
    SetEnds(y, stage, mid, o);
    CallEvaluates(stage, mid, o);
    assert mid.env[x] == Other && Tick(mid, o) == mid;
  }

  lemma {:induction false} ReachedOutside(x: string, y: string, stage: Expr, a: string, b: string) returns (st: State)
    requires IsStage(stage) && x != y
    ensures Reached(st, x, y, stage, a, b) && Outside(st, y)
  {
    var o := QUIET;
    assert forall k: nat :: Sub(o, k) == o;
    st := Exec(Either(x, y, stage, a, b), START, o);
    EitherRun(x, y, stage, a, b, START, o);
    TwoRun(Set(x, Str(a)), Set(y, Str(b)), START, o);
    SetEnds(x, Str(a), START, o);
    SetEnds(y, Str(b), Exec(Set(x, Str(a)), START, o), o);
  }

  /** No run truncates anything outside, although the call is reached with `x` no path, and with `y` outside: only not
      with both.  What is known of each name by itself does not tell. */
  lemma {:induction false} OpensTogether(ever: bool, x: string, y: string, stage: Expr, a: string, b: string,
                                         mode: string, line: nat)
    requires IsStage(stage) && x != y && x !in {"io", "builtins"}
    ensures Safe(ever, [Either(x, y, stage, a, b), ExprStmt(OpenOf(x, y, mode, line))])
    ensures exists st :: Reached(st, x, y, stage, a, b) && NoPath(st, x)
    ensures exists st :: Reached(st, x, y, stage, a, b) && Outside(st, y)
    ensures forall st | Reached(st, x, y, stage, a, b) :: !(NoPath(st, x) && Outside(st, y))
  {
    var first, call := Either(x, y, stage, a, b), OpenOf(x, y, mode, line);
    var program := [first, ExprStmt(call)];
    forall o ensures Marks(ever, Run(program, o)) == {} {
      EitherGuards(ever, x, y, stage, a, b, Sub(o, 0));
      hide Eval;
      TwoRun(first, ExprStmt(call), START, o);
      var st, o1 := Exec(first, START, Sub(o, 0)), Sub(Sub(o, 1), 0);
      if st.out.Running? && Tick(st, o1).out.Running? {
        GuardedOpen(ever, x, y, mode, line, Tick(st, o1), Sub(o1, 0));
      }
    }
    var st := ReachedWithoutPath(x, y, stage, a, b);
    var st' := ReachedOutside(x, y, stage, a, b);
    forall st | Reached(st, x, y, stage, a, b) ensures !(NoPath(st, x) && Outside(st, y)) {
      var o :| st == Exec(first, START, o);
      EitherGuards(true, x, y, stage, a, b, o);
    }
  }
}
