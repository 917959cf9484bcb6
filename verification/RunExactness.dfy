/** The reference is exact: for every way a statement can end, and every name that the reference does not promise to be
    private then, some run ends that way with the name holding a path outside. */
module RunExactness {
  import opened Common
  import opened PurePaths
  import opened PyAst
  import opened PyRuns
  import opened StagingFlow
  import opened FlowSoundness
  import opened RunSoundness
  import opened PyLiterals
  import opened RunWitness
  import opened ExprWitness
  import opened StmtWitness
  import opened WithWitness

  // ----- one step of a run

  lemma {:induction false} ExecWith(stmt: Stmt, st: State, o: Oracle)
    requires stmt.With? && st.out.Running? && !o.now.raises
    ensures var r := Enter(stmt.items, st, Sub(o, 0));
      Exec(stmt, st, o) == Leave(r, ExecB(stmt.body, r.st, Sub(o, 1)), Sub(o, 2))
  {
  }

  lemma {:induction false} ExecLoopStmt(loop: Stmt, st: State, o: Oracle)
    requires (loop.For? || loop.While?) && st.out.Running? && !o.now.raises
    ensures var st1 := if loop.For? then Eval(loop.iter, st, Sub(o, 0)).1 else st;
      Exec(loop, st, o)
        == AfterLoop(loop.orelse,
                     ExecLoop(if loop.For? then BoundNames(loop.target) else {},
                              if loop.For? then [] else [loop.test], loop.body, o.now.count, st1, Sub(o, 1)),
                     Sub(o, 2))
  {
  }

  lemma {:induction false} StartRuns(ever: bool, st: State, src: Option<string>, gone: set<Path>, n: nat)
    requires Start(ever, st, src, gone, n)
    ensures st.out.Running? && Ready(st, n) && gone <= st.made && Missing(ever, st, src, gone)
  {
  }

  lemma {:induction false} StartNow(ever: bool, st: State, src: Option<string>, gone: set<Path>, n: nat)
    requires EndsIn(ever, st, Running, src, gone, n) && gone <= st.made
    ensures Start(ever, st, src, gone, n)
  {
    assert st.(out := Running) == st;
  }

  // ----- blocks and branches

  lemma {:induction false} WantedBoth(f: Flow, g: Flow, out: Outcome, goal: Option<string>)
    requires Wanted(Both(f, g), out, goal)
    ensures Wanted(f, out, goal) || Wanted(g, out, goal)
  {
  }

  lemma {:induction false} BlockAble(ever: bool, block: seq<Stmt>, s: set<string>, out: Outcome, goal: Option<string>,
                                     n: nat) returns (src: Option<string>)
    requires FairB(block, n) && Wanted(FollowB(ever, block, s), out, goal)
    ensures Before(src, goal, s) && AbleB(ever, block, src, out, goal, n)
    decreases block, 0
  {
    if block == [] {
      src := goal;
      forall st, gone | Start(ever, st, src, gone, n)
        ensures exists o :: EndsIn(ever, ExecB(block, st, o), out, goal, gone, n)
      {
        assert EndsIn(ever, ExecB(block, st, QUIET), out, goal, gone, n);
      }
    } else {
      var f := Follow(ever, block[0], s);
      var rest := if f.next.Never? then DEAD else FollowB(ever, block[1..], f.next.s);
      WantedBoth(f.(next := Never), rest, out, goal);
      if Wanted(f.(next := Never), out, goal) {
        src := StmtAble(ever, block[0], s, out, goal, n);
        LeavesAble(ever, block, src, out, goal, n);
      } else {
        var mid := BlockAble(ever, block[1..], f.next.s, out, goal, n);
        src := StmtAble(ever, block[0], s, Running, mid, n);
        ThenAble(ever, block, src, mid, out, goal, n);
      }
    }
  }

  /** The first statement of a block leaves it. */
  lemma {:induction false} LeavesAble(ever: bool, block: seq<Stmt>, src: Option<string>, out: Outcome,
                                      goal: Option<string>, n: nat)
    requires block != [] && !out.Running? && Able(ever, block[0], src, out, goal, n)
    ensures AbleB(ever, block, src, out, goal, n)
  {
    forall st, gone | Start(ever, st, src, gone, n)
      ensures exists o :: EndsIn(ever, ExecB(block, st, o), out, goal, gone, n)
    {
      var a :| EndsIn(ever, Exec(block[0], st, a), out, goal, gone, n);
      assert EndsIn(ever, ExecB(block, st, Node(OUT.path, [a])), out, goal, gone, n);
    }
  }

  lemma {:induction false} ThenAble(ever: bool, block: seq<Stmt>, src: Option<string>, mid: Option<string>,
                                    out: Outcome, goal: Option<string>, n: nat)
    requires block != [] && Able(ever, block[0], src, Running, mid, n) && AbleB(ever, block[1..], mid, out, goal, n)
    ensures AbleB(ever, block, src, out, goal, n)
  {
    forall st, gone | Start(ever, st, src, gone, n)
      ensures exists o :: EndsIn(ever, ExecB(block, st, o), out, goal, gone, n)
    {
      var a :| EndsIn(ever, Exec(block[0], st, a), Running, mid, gone, n);
      var st1 := Exec(block[0], st, a);
      assert st1.(out := Running) == st1 && Start(ever, st1, mid, gone, n);
      var b :| EndsIn(ever, ExecB(block[1..], st1, b), out, goal, gone, n);
      assert EndsIn(ever, ExecB(block, st, Node(OUT.path, [a, b])), out, goal, gone, n);
    }
  }

  lemma {:induction false} IfAble(ever: bool, stmt: Stmt, s: set<string>, out: Outcome, goal: Option<string>, n: nat)
      returns (src: Option<string>)
    requires stmt.If? && FairStmt(stmt, n) && Wanted(Follow(ever, stmt, s), out, goal)
    ensures Before(src, goal, s) && Able(ever, stmt, src, out, goal, n)
    decreases stmt, 0
  {
    var f, g := FollowB(ever, stmt.body, s), FollowB(ever, stmt.orelse, s);
    WantedBoth(DEAD.(raised := Names(s)), Both(f, g), out, goal);
    if Wanted(DEAD.(raised := Names(s)), out, goal) {
      src := goal;
      RaiseAble(ever, stmt, goal, n);
    } else {
      WantedBoth(f, g, out, goal);
      var branch := Wanted(f, out, goal);
      var block := if branch then stmt.body else stmt.orelse;
      src := BlockAble(ever, block, s, out, goal, n);
      BranchAble(ever, stmt, branch, src, out, goal, n);
    }
  }

  lemma {:induction false} BranchAble(ever: bool, stmt: Stmt, branch: bool, src: Option<string>, out: Outcome,
                                      goal: Option<string>, n: nat)
    requires stmt.If? && FairStmt(stmt, n)
    requires AbleB(ever, if branch then stmt.body else stmt.orelse, src, out, goal, n)
    ensures Able(ever, stmt, src, out, goal, n)
  {
    var block := if branch then stmt.body else stmt.orelse;
    forall st, gone | Start(ever, st, src, gone, n)
      ensures exists o :: EndsIn(ever, Exec(stmt, st, o), out, goal, gone, n)
    {
      var a := EvalRuns(stmt.test, st, n);
      var st1 := Eval(stmt.test, st, a).1;
      MissingLater(ever, src, st, st1, gone, gone, n);
      assert Start(ever, st1, src, gone, n);
      hide Eval, Exec, ExecB, EndsIn, Start, FairStmt;
      var b :| EndsIn(ever, ExecB(block, st1, b), out, goal, gone, n);
      var o := Oracle(Calm(OUT.path).(branch := branch), [a, b]);
      ExecIf(stmt, st, o);
      assert EndsIn(ever, Exec(stmt, st, o), out, goal, gone, n);
    }
  }

  lemma {:induction false} ExecIf(stmt: Stmt, st: State, o: Oracle)
    requires stmt.If? && st.out.Running? && !o.now.raises
    ensures Exec(stmt, st, o) ==
      ExecB(if o.now.branch then stmt.body else stmt.orelse, Eval(stmt.test, st, Sub(o, 0)).1, Sub(o, 1))
  {
    assert Tick(st, o) == st;
  }

  // ----- `with`

  /** How a `with` ends whose body ends in `out`. */
  function LeaveOut(now: Choice, swallows: bool, out: Outcome): Outcome {
    if now.raises then Raised else if out.Raised? && swallows && now.branch then Running else out
  }

  lemma {:induction false} ThroughAble(ever: bool, stmt: Stmt, now: Choice, src: Option<string>, mid: Option<string>,
                                       out: Outcome, goal: Option<string>, n: nat)
    requires stmt.With? && EnterAble(ever, ever, stmt.items, src, mid, n) && AbleB(ever, stmt.body, mid, out, goal, n)
    ensures Able(ever, stmt, src, LeaveOut(now, MaySwallow(stmt.items), out), goal, n)
  {
    hide Exec, ExecB, Enter, Ready, Missing, MaySwallow, Inside, Start;
    var end := LeaveOut(now, MaySwallow(stmt.items), out);
    forall st, gone | Start(ever, st, src, gone, n)
      ensures exists o :: EndsIn(ever, Exec(stmt, st, o), end, goal, gone, n)
    {
      var a :| Inside(ever, ever, Enter(stmt.items, st, a), stmt.items, mid, gone, n)
               && Later(st, Enter(stmt.items, st, a).st);
      var r := Enter(stmt.items, st, a);
      InsideNow(ever, ever, r, stmt.items, mid, gone, n);
      var b :| EndsIn(ever, ExecB(stmt.body, r.st, b), out, goal, Ending(ever, gone, r.places), n);
      var o := Node(OUT.path, [a, b, Oracle(now, [])]);
      var st2 := ExecB(stmt.body, r.st, b);
      EndsNow(ever, st2, out, goal, Ending(ever, gone, r.places), n);
      LeaveEnds(ever, r, st2, goal, gone, n, Oracle(now, []));
      StartRuns(ever, st, src, gone, n);
      ExecWith(stmt, st, o);
      assert EndsIn(ever, Exec(stmt, st, o), end, goal, gone, n);
    }
  }

  lemma {:induction false} InsideNow(ever: bool, binders: bool, r: Entered, items: seq<WithItem>, mid: Option<string>,
                                     gone: set<Path>, n: nat)
    requires Inside(ever, binders, r, items, mid, gone, n)
    ensures r.swallows == MaySwallow(items) && Start(ever, r.st, mid, Ending(binders, gone, r.places), n)
  {
  }

  lemma {:induction false} EndsNow(ever: bool, st: State, out: Outcome, goal: Option<string>, gone: set<Path>, n: nat)
    requires EndsIn(ever, st, out, goal, gone, n)
    ensures st.out == out && Ready(st.(out := Running), n) && Missing(ever, st, goal, gone)
  {
  }

  lemma {:induction false} FailThrough(ever: bool, stmt: Stmt, src: Option<string>, goal: Option<string>, n: nat,
                                       needed: bool)
    requires stmt.With? && FailAble(ever, stmt.items, src, goal, n, needed)
    ensures Able(ever, stmt, src, if needed then Running else Raised, goal, n)
  {
    hide Exec, Enter, Ready, Missing;
    var now := Calm(OUT.path).(branch := needed);
    var end := if needed then Running else Raised;
    forall st, gone | Start(ever, st, src, gone, n)
      ensures exists o :: EndsIn(ever, Exec(stmt, st, o), end, goal, gone, n)
    {
      var a :| Fails(ever, Enter(stmt.items, st, a), goal, gone, n, needed);
      var r := Enter(stmt.items, st, a);
      var o := Node(OUT.path, [a, QUIET, Oracle(now, [])]);
      LeaveEnds(ever, r, r.st, goal, gone, n, Oracle(now, []));
      StartRuns(ever, st, src, gone, n);
      ExecWith(stmt, st, o);
      assert EndsIn(ever, Exec(stmt, st, o), end, goal, gone, n);
    }
  }

  /** One of the ways out. */
  lemma {:induction false} SomeEnd(f: Flow, goal: Option<string>) returns (out: Outcome)
    requires Ends(f).Names? && Unstaged(goal, Ends(f).s)
    ensures Wanted(f, out, goal)
  {
    out := if Wanted(f, Running, goal) then Running else if Wanted(f, Raised, goal) then Raised
           else if Wanted(f, Returned, goal) then Returned else if Wanted(f, Broke, goal) then Broke else Continued;
  }

  /** Where a `with` that ends in `out` comes from: its items raise, or its body ends in a way that leaving turns into
      `out`. */
  lemma {:induction false} WithPick(ever: bool, items: seq<WithItem>, s: set<string>, f: Flow, out: Outcome,
                                    goal: Option<string>) returns (fails: bool, now: Choice, k: Outcome)
    requires Wanted(WithFlow(ever, items, s, f), out, goal) && !(out.Raised? && Unstaged(goal, s))
    ensures fails ==>
      (out.Running? || out.Raised?)
      && Wanted(DEAD.(raised := Failing(ever, items, s, out.Running?, false)), Raised, goal)
    ensures !fails ==> Wanted(f, k, goal) && LeaveOut(now, MaySwallow(items), k) == out
  {
    var calm := Calm(OUT.path);
    fails, now, k := false, calm, out;
    if out.Raised? {
      var entering := EnterRaised(ever, items, s);
      if entering.Names? && Unstaged(goal, entering.s) {
        fails := true;
      } else {
        k := SomeEnd(f, goal);
        now := calm.(raises := true);
      }
    } else if out.Running? && !Wanted(f, Running, goal) {
      var entering := EnterSwallowed(ever, items, s, false);
      if entering.Names? && Unstaged(goal, entering.s) {
        fails := true;
      } else {
        k, now := Raised, calm.(branch := true);
      }
    }
  }

  lemma {:induction false} WithAble(ever: bool, stmt: Stmt, s: set<string>, out: Outcome, goal: Option<string>, n: nat)
      returns (src: Option<string>)
    requires stmt.With? && FairStmt(stmt, n) && Wanted(Follow(ever, stmt, s), out, goal)
    requires !(out.Raised? && Unstaged(goal, s))
    ensures Before(src, goal, s) && Able(ever, stmt, src, out, goal, n)
    decreases stmt, 0
  {
    var inner := AfterEnter(ever, stmt.items, s);
    var f := FollowB(ever, stmt.body, inner);
    var fails, now, k := WithPick(ever, stmt.items, s, f, out, goal);
    if fails {
      src := EnterFails(ever, stmt.items, s, goal, n, out.Running?, false);
      FailThrough(ever, stmt, src, goal, n, out.Running?);
    } else {
      var mid := BlockAble(ever, stmt.body, inner, k, goal, n);
      src := EnterLoses(ever, ever, stmt.items, s, mid, n);
      ThroughAble(ever, stmt, now, src, mid, k, goal, n);
    }
  }

  // ----- loops

  /** What the rounds of a loop are to do: to end in `out` with `goal` outside, or to truncate a path outside. */
  datatype Aim = Reach(out: Outcome, goal: Option<string>) | Truncate

  ghost predicate Hits(ever: bool, st: State, aim: Aim, gone: set<Path>, n: nat) {
    match aim
    case Reach(out, goal) => EndsIn(ever, st, out, goal, gone, n)
    case Truncate => gone == {} ==> Marks(ever, st) != {}
  }

  /** From every state in which `src` is outside the rounds of a loop can do so. */
  ghost predicate LoopCan(ever: bool, targets: set<string>, tests: seq<Expr>, body: seq<Stmt>, src: Option<string>,
                          aim: Aim, n: nat) {
    forall st, gone | Start(ever, st, src, gone, n) ::
      exists count: nat, o :: Hits(ever, ExecLoop(targets, tests, body, count, st, o), aim, gone, n)
  }

  lemma {:induction false} ExitNow(ever: bool, targets: set<string>, tests: seq<Expr>, body: seq<Stmt>,
                                   goal: Option<string>, n: nat, raises: bool)
    requires FairAll(tests, n)
    ensures LoopCan(ever, targets, tests, body, goal, Reach(if raises then Raised else Running, goal), n)
  {
    var end := if raises then Raised else Running;
    forall st, gone | Start(ever, st, goal, gone, n)
      ensures exists count: nat, o ::
        Hits(ever, ExecLoop(targets, tests, body, count, st, o), Reach(end, goal), gone, n)
    {
      var a := AllRun(tests, st, n);
      var o := Oracle(Calm(OUT.path).(raises := raises), [a]);
      MissingLater(ever, goal, st, EvalAll(tests, st, a).1, gone, gone, n);
      assert Hits(ever, ExecLoop(targets, tests, body, 0, st, o), Reach(end, goal), gone, n);
    }
  }

  /** The head of a round: the tests succeed and the targets get values outside. */
  lemma {:induction false} HeadRuns(ever: bool, targets: set<string>, tests: seq<Expr>, st: State,
                                    src: Option<string>, inner: Option<string>, gone: set<Path>, n: nat)
      returns (a: Oracle)
    requires FairAll(tests, n) && Start(ever, st, src, gone, n)
    requires src == if inner.Some? && inner.value in targets then None else inner
    ensures var st1 := EvalAll(tests, st, a).1;
      st1.out.Running? && Start(ever, BindAny(targets, st1, QUIET), inner, gone, n)
  {
    a := AllRun(tests, st, n);
    var st1 := EvalAll(tests, st, a).1;
    MissingLater(ever, src, st, st1, gone, gone, n);
    AnyLost(ever, targets, st1, QUIET, inner, gone, n);
  }

  lemma {:induction false} LastRound(ever: bool, targets: set<string>, tests: seq<Expr>, body: seq<Stmt>,
                                     src: Option<string>, inner: Option<string>, out: Outcome, goal: Option<string>,
                                     n: nat)
    requires FairAll(tests, n) && AbleB(ever, body, inner, out, goal, n) && !out.Running? && !out.Continued?
    requires src == if inner.Some? && inner.value in targets then None else inner
    ensures LoopCan(ever, targets, tests, body, src, Reach(out, goal), n)
  {
    forall st, gone | Start(ever, st, src, gone, n)
      ensures exists count: nat, o ::
        Hits(ever, ExecLoop(targets, tests, body, count, st, o), Reach(out, goal), gone, n)
    {
      var a := HeadRuns(ever, targets, tests, st, src, inner, gone, n);
      var st1 := BindAny(targets, EvalAll(tests, st, a).1, QUIET);
      var b :| EndsIn(ever, ExecB(body, st1, b), out, goal, gone, n);
      var o := Node(OUT.path, [a, b]);
      RoundStep(targets, tests, body, 1, st, o, st1);
      assert Hits(ever, ExecLoop(targets, tests, body, 1, st, o), Reach(out, goal), gone, n);
    }
  }

  /** One round of a loop. */
  lemma {:induction false} RoundStep(targets: set<string>, tests: seq<Expr>, body: seq<Stmt>, count: nat, st: State,
                                     o: Oracle, st1: State)
    requires count > 0 && st.out.Running? && !o.now.raises && EvalAll(tests, st, Sub(o, 0)).1.out.Running?
    requires st1 == BindAny(targets, EvalAll(tests, st, Sub(o, 0)).1, o)
    ensures var st2 := ExecB(body, st1, Sub(o, 1));
      ExecLoop(targets, tests, body, count, st, o)
        == if st2.out.Running? || st2.out.Continued?
           then ExecLoop(targets, tests, body, count - 1, st2.(out := Running), Sub(o, 2)) else st2
  {
  }

  lemma {:induction false} RoundStarts(ever: bool, st: State, k: Outcome, mid: Option<string>, gone: set<Path>, n: nat)
    requires EndsIn(ever, st, k, mid, gone, n) && gone <= st.made
    ensures Start(ever, st.(out := Running), mid, gone, n)
  {
  }

  /** A round before the others. */
  lemma {:induction false} MoreRounds(ever: bool, targets: set<string>, tests: seq<Expr>, body: seq<Stmt>,
                                      src: Option<string>, inner: Option<string>, k: Outcome, mid: Option<string>,
                                      aim: Aim, n: nat)
    requires FairAll(tests, n) && AbleB(ever, body, inner, k, mid, n) && (k.Running? || k.Continued?)
    requires LoopCan(ever, targets, tests, body, mid, aim, n)
    requires src == if inner.Some? && inner.value in targets then None else inner
    ensures LoopCan(ever, targets, tests, body, src, aim, n)
  {
    hide ExecLoop, ExecB, EvalAll, Ready, Missing;
    forall st, gone | Start(ever, st, src, gone, n)
      ensures exists count: nat, o :: Hits(ever, ExecLoop(targets, tests, body, count, st, o), aim, gone, n)
    {
      var a := HeadRuns(ever, targets, tests, st, src, inner, gone, n);
      var st1 := BindAny(targets, EvalAll(tests, st, a).1, QUIET);
      var b :| EndsIn(ever, ExecB(body, st1, b), k, mid, gone, n);
      var st2 := ExecB(body, st1, b).(out := Running);
      StartRuns(ever, st, src, gone, n);
      RoundStarts(ever, ExecB(body, st1, b), k, mid, gone, n);
      var count: nat, c :| Hits(ever, ExecLoop(targets, tests, body, count, st2, c), aim, gone, n);
      var o := Node(OUT.path, [a, b, c]);
      RoundStep(targets, tests, body, count + 1, st, o, st1);
      assert Hits(ever, ExecLoop(targets, tests, body, count + 1, st, o), aim, gone, n);
    }
  }

  /** A name that some round loses is lost at the head after enough rounds. */
  lemma {:induction false} LiftLoop(ever: bool, targets: set<string>, tests: seq<Expr>, body: seq<Stmt>,
                                    s: set<string>, y: Option<string>, aim: Aim, n: nat)
      returns (src: Option<string>)
    requires FairAll(tests, n) && FairB(body, n) && Unstaged(y, LoopNames(ever, targets, body, s))
    requires LoopCan(ever, targets, tests, body, y, aim, n)
    ensures Before(src, y, s) && LoopCan(ever, targets, tests, body, src, aim, n)
    decreases body, 1, |s|
  {
    var f := FollowB(ever, body, s - targets);
    var kept := Kept(s, f);
    if Unstaged(y, s) {
      src := y;
    } else {
      Shrinks(s, kept);
      src := LiftLoop(ever, targets, tests, body, kept, y, aim, n);
      if !Unstaged(src, s) {
        var mid := src;
        var k := if Wanted(f, Running, mid) then Running else Continued;
        var inner := BlockAble(ever, body, s - targets, k, mid, n);
        src := if inner.Some? && inner.value in targets then None else inner;
        MoreRounds(ever, targets, tests, body, src, inner, k, mid, aim, n);
      }
    }
  }

  /** What a loop needs of its rounds to end in `out`: how they end, and whether the `else` branch follows. */
  lemma {:induction false} RoundsAble(ever: bool, loop: Stmt, targets: set<string>, tests: seq<Expr>, s: set<string>,
                                      out: Outcome, goal: Option<string>, n: nat)
      returns (y: Option<string>, k: Outcome, mid: Option<string>)
    requires (loop.For? || loop.While?) && FairAll(tests, n) && FairStmt(loop, n)
    requires var head := LoopNames(ever, targets, loop.body, s);
      Wanted(LoopFlow(head, FollowB(ever, loop.body, head - targets), FollowB(ever, loop.orelse, head)), out, goal)
    ensures Before(y, goal, LoopNames(ever, targets, loop.body, s))
    ensures LoopCan(ever, targets, tests, loop.body, y, Reach(k, mid), n)
    ensures if k.Running? then AbleB(ever, loop.orelse, mid, out, goal, n)
            else mid == goal && !k.Continued? && out == if k.Broke? then Running else k
    decreases loop, 0
  {
    var head := LoopNames(ever, targets, loop.body, s);
    var f, g := FollowB(ever, loop.body, head - targets), FollowB(ever, loop.orelse, head);
    if Wanted(g, out, goal) {
      mid := BlockAble(ever, loop.orelse, head, out, goal, n);
      y, k := mid, Running;
      ExitNow(ever, targets, tests, loop.body, mid, n, false);
    } else if out.Raised? && Unstaged(goal, head) {
      y, k, mid := goal, Raised, goal;
      ExitNow(ever, targets, tests, loop.body, goal, n, true);
    } else {
      k, mid := if out.Running? then Broke else out, goal;
      assert Wanted(f, k, goal);
      var inner := BlockAble(ever, loop.body, head - targets, k, goal, n);
      y := if inner.Some? && inner.value in targets then None else inner;
      LastRound(ever, targets, tests, loop.body, y, inner, k, goal, n);
    }
  }

  lemma {:induction false} LoopDone(ever: bool, loop: Stmt, targets: set<string>, tests: seq<Expr>,
                                    src: Option<string>, k: Outcome, mid: Option<string>, out: Outcome,
                                    goal: Option<string>, n: nat)
    requires loop.For? || loop.While?
    requires targets == (if loop.For? then BoundNames(loop.target) else {})
    requires tests == (if loop.For? then [] else [loop.test]) && FairStmt(loop, n)
    requires LoopCan(ever, targets, tests, loop.body, src, Reach(k, mid), n)
    requires if k.Running? then AbleB(ever, loop.orelse, mid, out, goal, n)
             else mid == goal && !k.Continued? && out == if k.Broke? then Running else k
    ensures Able(ever, loop, src, out, goal, n)
  {
    hide Exec, ExecLoop, ExecB, Eval, Ready, Missing;
    forall st, gone | Start(ever, st, src, gone, n)
      ensures exists o :: EndsIn(ever, Exec(loop, st, o), out, goal, gone, n)
    {
      var a := IterRuns(ever, loop, st, src, gone, n);
      var st1 := if loop.For? then Eval(loop.iter, st, a).1 else st;
      var count: nat, b :| Hits(ever, ExecLoop(targets, tests, loop.body, count, st1, b), Reach(k, mid), gone, n);
      var st2 := ExecLoop(targets, tests, loop.body, count, st1, b);
      var c := ElseRuns(ever, loop.orelse, st2, k, mid, out, goal, gone, n);
      var o := Oracle(Calm(OUT.path).(count := count), [a, b, c]);
      StartRuns(ever, st, src, gone, n);
      ExecLoopStmt(loop, st, o);
      assert EndsIn(ever, Exec(loop, st, o), out, goal, gone, n);
    }
  }

  lemma {:induction false} IterRuns(ever: bool, loop: Stmt, st: State, src: Option<string>, gone: set<Path>, n: nat)
      returns (a: Oracle)
    requires (loop.For? || loop.While?) && FairStmt(loop, n) && Start(ever, st, src, gone, n)
    ensures var st1 := if loop.For? then Eval(loop.iter, st, a).1 else st;
      Start(ever, st1, src, gone, n) && st.made <= st1.made
  {
    a := QUIET;
    if loop.For? {
      a := EvalRuns(loop.iter, st, n);
      MissingLater(ever, src, st, Eval(loop.iter, st, a).1, gone, gone, n);
    }
  }

  /** The end of a loop, with its `else` branch if the rounds are exhausted. */
  lemma {:induction false} ElseRuns(ever: bool, orelse: seq<Stmt>, st: State, k: Outcome, mid: Option<string>,
                                    out: Outcome, goal: Option<string>, gone: set<Path>, n: nat) returns (c: Oracle)
    requires EndsIn(ever, st, k, mid, gone, n) && gone <= st.made
    requires if k.Running? then AbleB(ever, orelse, mid, out, goal, n)
             else mid == goal && !k.Continued? && out == if k.Broke? then Running else k
    ensures EndsIn(ever, AfterLoop(orelse, st, c), out, goal, gone, n)
  {
    c := QUIET;
    if k.Running? {
      StartNow(ever, st, mid, gone, n);
      c :| EndsIn(ever, ExecB(orelse, st, c), out, goal, gone, n);
    }
  }

  lemma {:induction false} LoopAble(ever: bool, loop: Stmt, s: set<string>, out: Outcome, goal: Option<string>, n: nat)
      returns (src: Option<string>)
    requires (loop.For? || loop.While?) && FairStmt(loop, n) && Wanted(Follow(ever, loop, s), out, goal)
    ensures Before(src, goal, s) && Able(ever, loop, src, out, goal, n)
    decreases loop, 1
  {
    var targets := if loop.For? then BoundNames(loop.target) else {};
    var tests: seq<Expr> := if loop.For? then [] else [loop.test];
    assert tests != [] ==> tests[1..] == [];
    var head := LoopNames(ever, targets, loop.body, s);
    assert loop.While? ==> head - targets == head;
    var y, k, mid := RoundsAble(ever, loop, targets, tests, s, out, goal, n);
    src := LiftLoop(ever, targets, tests, loop.body, s, y, Reach(k, mid), n);
    LoopDone(ever, loop, targets, tests, src, k, mid, out, goal, n);
  }

  // ----- `try`

  ghost predicate TryCan(ever: bool, stmt: Stmt, src: Option<string>, out: Outcome, goal: Option<string>, n: nat)
    requires stmt.Try?
  {
    forall st, gone | Start(ever, st, src, gone, n) ::
      exists o :: EndsIn(ever, ExecTry(stmt, st, o), out, goal, gone, n) && !o.now.raises
  }

  lemma {:induction false} HandlerPick(ever: bool, handlers: seq<Handler>, s: set<string>, out: Outcome,
                                       goal: Option<string>, n: nat) returns (k: nat)
    requires FairH(handlers, n) && Wanted(FollowH(ever, handlers, s), out, goal)
    ensures k < |handlers| && FairB(handlers[k].body, n) && Wanted(FollowB(ever, handlers[k].body, s), out, goal)
    decreases handlers
  {
    WantedBoth(FollowB(ever, handlers[0].body, s), FollowH(ever, handlers[1..], s), out, goal);
    if Wanted(FollowB(ever, handlers[0].body, s), out, goal) {
      k := 0;
    } else {
      var j := HandlerPick(ever, handlers[1..], s, out, goal, n);
      k := j + 1;
    }
  }

  lemma {:induction false} BodyOnly(ever: bool, stmt: Stmt, src: Option<string>, out: Outcome, goal: Option<string>,
                                    n: nat)
    requires stmt.Try? && AbleB(ever, stmt.body, src, out, goal, n) && !out.Running?
    ensures TryCan(ever, stmt, src, out, goal, n)
  {
    hide ExecB, Ready, Missing;
    forall st, gone | Start(ever, st, src, gone, n)
      ensures exists o :: EndsIn(ever, ExecTry(stmt, st, o), out, goal, gone, n) && !o.now.raises
    {
      var a :| EndsIn(ever, ExecB(stmt.body, st, a), out, goal, gone, n);
      var o := Node(OUT.path, [a]);
      assert ExecTry(stmt, st, o) == ExecB(stmt.body, st, a);
    }
  }

  lemma {:induction false} HandlerCan(ever: bool, stmt: Stmt, k: nat, src: Option<string>, mid: Option<string>,
                                      out: Outcome, goal: Option<string>, n: nat)
    requires stmt.Try? && k < |stmt.handlers| && AbleB(ever, stmt.body, src, Raised, mid, n)
    requires AbleB(ever, stmt.handlers[k].body, mid, out, goal, n)
    ensures TryCan(ever, stmt, src, out, goal, n)
  {
    hide ExecB, Ready, Missing;
    forall st, gone | Start(ever, st, src, gone, n)
      ensures exists o :: EndsIn(ever, ExecTry(stmt, st, o), out, goal, gone, n) && !o.now.raises
    {
      StartRuns(ever, st, src, gone, n);
      var a :| EndsIn(ever, ExecB(stmt.body, st, a), Raised, mid, gone, n);
      var st1 := ExecB(stmt.body, st, a);
      RoundStarts(ever, st1, Raised, mid, gone, n);
      var b :| EndsIn(ever, ExecB(stmt.handlers[k].body, st1.(out := Running), b), out, goal, gone, n);
      var o := Oracle(Calm(OUT.path).(branch := true, count := k), [a, b]);
      assert k % |stmt.handlers| == k;
      assert ExecTry(stmt, st, o) == ExecB(stmt.handlers[k].body, st1.(out := Running), b);
    }
  }

  lemma {:induction false} OrelseCan(ever: bool, stmt: Stmt, src: Option<string>, mid: Option<string>, out: Outcome,
                                     goal: Option<string>, n: nat)
    requires stmt.Try? && AbleB(ever, stmt.body, src, Running, mid, n) && AbleB(ever, stmt.orelse, mid, out, goal, n)
    ensures TryCan(ever, stmt, src, out, goal, n)
  {
    hide ExecB, Ready, Missing;
    forall st, gone | Start(ever, st, src, gone, n)
      ensures exists o :: EndsIn(ever, ExecTry(stmt, st, o), out, goal, gone, n) && !o.now.raises
    {
      StartRuns(ever, st, src, gone, n);
      var a :| EndsIn(ever, ExecB(stmt.body, st, a), Running, mid, gone, n);
      var st1 := ExecB(stmt.body, st, a);
      StartNow(ever, st1, mid, gone, n);
      var b :| EndsIn(ever, ExecB(stmt.orelse, st1, b), out, goal, gone, n);
      var o := Node(OUT.path, [a, b]);
      assert ExecTry(stmt, st, o) == ExecB(stmt.orelse, st1, b);
    }
  }

  lemma {:induction false} PendingAble(ever: bool, stmt: Stmt, s: set<string>, out: Outcome, goal: Option<string>,
                                       n: nat) returns (src: Option<string>)
    requires stmt.Try? && FairStmt(stmt, n) && Wanted(Pending(ever, stmt, s), out, goal)
    ensures Before(src, goal, s) && TryCan(ever, stmt, src, out, goal, n)
    decreases stmt, 0
  {
    var f := FollowB(ever, stmt.body, s);
    var h := if f.raised.Never? then DEAD else FollowH(ever, stmt.handlers, f.raised.s);
    var g := FollowFrom(ever, stmt.orelse, f.next);
    WantedBoth(f.(next := Never), Both(h, g), out, goal);
    if Wanted(f.(next := Never), out, goal) {
      src := BlockAble(ever, stmt.body, s, out, goal, n);
      BodyOnly(ever, stmt, src, out, goal, n);
    } else {
      WantedBoth(h, g, out, goal);
      if Wanted(h, out, goal) {
        var k := HandlerPick(ever, stmt.handlers, f.raised.s, out, goal, n);
        var mid := BlockAble(ever, stmt.handlers[k].body, f.raised.s, out, goal, n);
        src := BlockAble(ever, stmt.body, s, Raised, mid, n);
        HandlerCan(ever, stmt, k, src, mid, out, goal, n);
      } else {
        var mid := BlockAble(ever, stmt.orelse, f.next.s, out, goal, n);
        src := BlockAble(ever, stmt.body, s, Running, mid, n);
        OrelseCan(ever, stmt, src, mid, out, goal, n);
      }
    }
  }

  /** Where the end of a `try` comes from: the outcome before the `finally` block and how that block ends. */
  lemma {:induction false} FinalPick(ever: bool, final: seq<Stmt>, pending: Flow, out: Outcome, goal: Option<string>)
      returns (k: Outcome, j: Outcome)
    requires Wanted(FinalFlow(ever, final, pending), out, goal)
    ensures At(pending, k).Names? && Wanted(FollowB(ever, final, At(pending, k).s), j, goal)
    ensures out == if j.Running? then k else j
  {
    hide FollowB;
    var a, b, c := FollowFrom(ever, final, pending.next), FollowFrom(ever, final, pending.raised),
                   FollowFrom(ever, final, pending.returned);
    var d, e := FollowFrom(ever, final, pending.broke), FollowFrom(ever, final, pending.continued);
    var through, own := Flow(a.next, b.next, c.next, d.next, e.next), Both(Both(a, b), Both(c, Both(d, e)));
    WantedBoth(through, own.(next := Never), out, goal);
    if Wanted(through, out, goal) {
      k, j := out, Running;
    } else {
      j := out;
      WantedBoth(Both(a, b), Both(c, Both(d, e)), out, goal);
      if Wanted(Both(a, b), out, goal) {
        WantedBoth(a, b, out, goal);
        k := if Wanted(a, out, goal) then Running else Raised;
      } else {
        WantedBoth(c, Both(d, e), out, goal);
        if Wanted(c, out, goal) {
          k := Returned;
        } else {
          WantedBoth(d, e, out, goal);
          k := if Wanted(d, out, goal) then Broke else Continued;
        }
      }
    }
  }

  lemma {:induction false} ExecTryStmt(stmt: Stmt, st: State, o: Oracle, o': Oracle)
    requires stmt.Try? && st.out.Running? && !o.now.raises && o'.now == o.now
    requires Sub(o', 0) == Sub(o, 0) && Sub(o', 1) == Sub(o, 1)
    ensures var st2 := ExecTry(stmt, st, o);
      Exec(stmt, st, o') == Finally(st2, ExecB(stmt.final, st2.(out := Running), Sub(o', 2)))
  {
    assert ExecTry(stmt, st, o') == ExecTry(stmt, st, o);
  }

  lemma {:induction false} TryDone(ever: bool, stmt: Stmt, src: Option<string>, k: Outcome, mid: Option<string>,
                                   j: Outcome, goal: Option<string>, n: nat)
    requires stmt.Try? && TryCan(ever, stmt, src, k, mid, n) && AbleB(ever, stmt.final, mid, j, goal, n)
    ensures Able(ever, stmt, src, if j.Running? then k else j, goal, n)
  {
    hide Exec, ExecB, ExecTry, Ready, Missing;
    var end := if j.Running? then k else j;
    forall st, gone | Start(ever, st, src, gone, n)
      ensures exists o :: EndsIn(ever, Exec(stmt, st, o), end, goal, gone, n)
    {
      StartRuns(ever, st, src, gone, n);
      var a :| EndsIn(ever, ExecTry(stmt, st, a), k, mid, gone, n) && !a.now.raises;
      var st2 := ExecTry(stmt, st, a);
      RoundStarts(ever, st2, k, mid, gone, n);
      var c :| EndsIn(ever, ExecB(stmt.final, st2.(out := Running), c), j, goal, gone, n);
      var o := Oracle(a.now, [Sub(a, 0), Sub(a, 1), c]);
      ExecTryStmt(stmt, st, a, o);
      FinallyEnds(ever, st2, ExecB(stmt.final, st2.(out := Running), c), k, j, goal, gone, n);
      assert EndsIn(ever, Exec(stmt, st, o), end, goal, gone, n);
    }
  }

  lemma {:induction false} FinallyEnds(ever: bool, before: State, after: State, k: Outcome, j: Outcome,
                                       goal: Option<string>, gone: set<Path>, n: nat)
    requires before.out == k && EndsIn(ever, after, j, goal, gone, n)
    ensures EndsIn(ever, Finally(before, after), if j.Running? then k else j, goal, gone, n)
  {
  }

  lemma {:induction false} TryAble(ever: bool, stmt: Stmt, s: set<string>, out: Outcome, goal: Option<string>, n: nat)
      returns (src: Option<string>)
    requires stmt.Try? && FairStmt(stmt, n) && Wanted(Follow(ever, stmt, s), out, goal)
    requires !(out.Raised? && Unstaged(goal, s))
    ensures Before(src, goal, s) && Able(ever, stmt, src, out, goal, n)
    decreases stmt, 1
  {
    var pending := Pending(ever, stmt, s);
    WantedBoth(DEAD.(raised := Names(s)), FinalFlow(ever, stmt.final, pending), out, goal);
    var k, j := FinalPick(ever, stmt.final, pending, out, goal);
    var mid := BlockAble(ever, stmt.final, At(pending, k).s, j, goal, n);
    src := PendingAble(ever, stmt, s, k, mid, n);
    TryDone(ever, stmt, src, k, mid, j, goal, n);
  }

  // ----- scopes

  /** What comes before the body of a function or class. */
  lemma {:induction false} HeadAble(ever: bool, first: seq<Expr>, rest: seq<Expr>, st: State, src: Option<string>,
                                    gone: set<Path>, n: nat) returns (a: Oracle, b: Oracle)
    requires FairAll(first, n) && FairAll(rest, n) && Start(ever, st, src, gone, n)
    ensures var st2 := EvalAll(rest, EvalAll(first, st, a).1, b).1;
      Start(ever, st2, src, gone, n) && st.made <= st2.made
  {
    a := AllRun(first, st, n);
    var st1 := EvalAll(first, st, a).1;
    MissingLater(ever, src, st, st1, gone, gone, n);
    b := AllRun(rest, st1, n);
    MissingLater(ever, src, st1, EvalAll(rest, st1, b).1, gone, gone, n);
  }

  lemma {:induction false} DefAble(ever: bool, stmt: Stmt, s: set<string>, goal: Option<string>, n: nat)
      returns (src: Option<string>)
    requires stmt.Def? && FairStmt(stmt, n) && Wanted(Follow(ever, stmt, s), Running, goal)
    ensures Before(src, goal, s) && Able(ever, stmt, src, Running, goal, n)
  {
    src := if goal == Some(stmt.name) then None else goal;
    forall st, gone | Start(ever, st, src, gone, n)
      ensures exists o :: EndsIn(ever, Exec(stmt, st, o), Running, goal, gone, n)
    {
      var a, b := HeadAble(ever, stmt.decorators, stmt.defaults, st, src, gone, n);
      var o := Node(OUT.path, [a, b]);
      var st2 := EvalAll(stmt.defaults, EvalAll(stmt.decorators, st, a).1, b).1;
      AnyLost(ever, {stmt.name}, st2, o, goal, gone, n);
      ExecDefStmt(stmt, st, o);
      assert EndsIn(ever, Exec(stmt, st, o), Running, goal, gone, n);
    }
  }

  /** A definition whose function is not called. */
  lemma {:induction false} ExecDefStmt(stmt: Stmt, st: State, o: Oracle)
    requires stmt.Def? && st.out.Running? && !o.now.raises && o.now.count == 0
    requires EvalAll(stmt.defaults, EvalAll(stmt.decorators, st, Sub(o, 0)).1, Sub(o, 1)).1.out.Running?
    ensures Exec(stmt, st, o)
         == BindAny({stmt.name}, EvalAll(stmt.defaults, EvalAll(stmt.decorators, st, Sub(o, 0)).1, Sub(o, 1)).1, o)
  {
    var st2 := EvalAll(stmt.defaults, EvalAll(stmt.decorators, st, Sub(o, 0)).1, Sub(o, 1)).1;
    assert RunBody(stmt.body, 0, st2, Sub(o, 2)) == st2;
    assert Tick(st, o) == st;
  }

  lemma {:induction false} ClassAble(ever: bool, stmt: Stmt, s: set<string>, goal: Option<string>, n: nat)
      returns (src: Option<string>)
    requires stmt.Class? && FairStmt(stmt, n) && Wanted(Follow(ever, stmt, s), Running, goal)
    ensures Before(src, goal, s) && Able(ever, stmt, src, Running, goal, n)
    decreases stmt, 0
  {
    var none := BlockAble(ever, stmt.body, s, Running, None, n);
    src := if goal == Some(stmt.name) then None else goal;
    forall st, gone | Start(ever, st, src, gone, n)
      ensures exists o :: EndsIn(ever, Exec(stmt, st, o), Running, goal, gone, n)
    {
      var o := ClassRuns(ever, stmt, st, src, goal, gone, n);
    }
  }

  lemma {:induction false} ClassRuns(ever: bool, stmt: Stmt, st: State, src: Option<string>, goal: Option<string>,
                                     gone: set<Path>, n: nat) returns (o: Oracle)
    requires stmt.Class? && FairStmt(stmt, n) && AbleB(ever, stmt.body, None, Running, None, n)
    requires Start(ever, st, src, gone, n) && src == if goal == Some(stmt.name) then None else goal
    ensures EndsIn(ever, Exec(stmt, st, o), Running, goal, gone, n)
  {
    var a, b := HeadAble(ever, stmt.decorators, stmt.bases, st, src, gone, n);
    var st2 := EvalAll(stmt.bases, EvalAll(stmt.decorators, st, a).1, b).1;
    assert Start(ever, st2, None, gone, n);
    var c :| EndsIn(ever, ExecB(stmt.body, st2, c), Running, None, gone, n);
    o := Node(OUT.path, [a, b, c]);
    ClassRan(ever, stmt, st, src, goal, gone, n, o);
  }

  lemma {:induction false} ClassRan(ever: bool, stmt: Stmt, st: State, src: Option<string>, goal: Option<string>,
                                    gone: set<Path>, n: nat, o: Oracle)
    requires stmt.Class? && o.now == Calm(OUT.path) && st.out.Running?
    requires src == if goal == Some(stmt.name) then None else goal
    requires var st2 := EvalAll(stmt.bases, EvalAll(stmt.decorators, st, Sub(o, 0)).1, Sub(o, 1)).1;
      Start(ever, st2, src, gone, n) && EndsIn(ever, ExecB(stmt.body, st2, Sub(o, 2)), Running, None, gone, n)
    ensures EndsIn(ever, Exec(stmt, st, o), Running, goal, gone, n)
  {
    hide EvalAll, ExecB;
    var st2 := EvalAll(stmt.bases, EvalAll(stmt.decorators, st, Sub(o, 0)).1, Sub(o, 1)).1;
    var st3 := ExecB(stmt.body, st2, Sub(o, 2)).(env := st2.env);
    assert Ready(st3, n);
    MissingLater(ever, src, st2, st3, gone, gone, n);
    AnyLost(ever, {stmt.name}, st3, o, goal, gone, n);
    assert Exec(stmt, st, o) == BindAny({stmt.name}, st3, o);
  }

  // ----- all statements

  lemma {:induction false} StmtAble(ever: bool, stmt: Stmt, s: set<string>, out: Outcome, goal: Option<string>, n: nat)
      returns (src: Option<string>)
    requires FairStmt(stmt, n) && Wanted(Follow(ever, stmt, s), out, goal)
    ensures Before(src, goal, s) && Able(ever, stmt, src, out, goal, n)
    decreases stmt
  {
    hide Able, FollowB, WithFlow, LoopNames, LoopFlow, FinalFlow, Pending, FairB;
    if out.Raised? && Unstaged(goal, s) {
      src := goal;
      RaiseAble(ever, stmt, goal, n);
    } else {
      match stmt
      case If(_, _, _) => src := IfAble(ever, stmt, s, out, goal, n);
      case With(_, _) => src := WithAble(ever, stmt, s, out, goal, n);
      case For(_, _, _, _) => src := LoopAble(ever, stmt, s, out, goal, n);
      case While(_, _, _) => src := LoopAble(ever, stmt, s, out, goal, n);
      case Try(_, _, _, _) => src := TryAble(ever, stmt, s, out, goal, n);
      case Def(_, _, _, _) => src := DefAble(ever, stmt, s, goal, n);
      case Class(_, _, _, _) => src := ClassAble(ever, stmt, s, goal, n);
      case Assign(_, _) => src := AssignAble(ever, stmt, s, goal, n);
      case Rebind(_, _) => src := RebindAble(ever, stmt, s, goal, n);
      case _ =>
        src := goal;
        PlainAble(ever, stmt, s, out, goal, n);
    }
  }
}
