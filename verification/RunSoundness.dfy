/** The reference is sound for statements, blocks and whole programs. */
module RunSoundness {
  import opened PurePaths
  import opened PyAst
  import opened WriteScanner
  import opened PyRuns
  import opened StagingFlow
  import opened FlowSoundness

  lemma {:induction false} LaterTrans(a: State, b: State, c: State)
    requires Later(a, b) && Later(b, c)
    ensures Later(a, c)
  {
  }

  lemma {:induction false} Fewer(ever: bool, st: State, s: set<string>, fewer: set<string>, gone: set<Path>)
    requires Consistent(ever, st, s, gone) && fewer <= s
    ensures Consistent(ever, st, fewer, gone)
  {
  }

  // ----- which names are private afterwards

  /** Binding a value to a target: a private value for a staged target, any otherwise. */
  lemma {:induction false} BoundOne(ever: bool, target: Target, v: Value, s: set<string>, st: State,
                                    pick: string -> Value, isStaged: bool, gone: set<Path>)
    requires Consistent(ever, st, s, gone) && (isStaged ==> Private(v, Counted(ever, st, gone)))
    ensures Consistent(ever, BindTo(target, v, st, pick), Rebound(s, BoundNames(target), isStaged), gone)
  {
    if isStaged {
      var root :| root in Counted(ever, st, gone) && Under(root, v.path);
      assert root in st.made;
    }
  }

  lemma {:induction false} BoundAll(ever: bool, targets: seq<Target>, v: Value, s: set<string>, st: State, o: Oracle,
                                    isStaged: bool, gone: set<Path>)
    requires Consistent(ever, st, s, gone) && (isStaged ==> Private(v, Counted(ever, st, gone)))
    ensures Consistent(ever, BindAll(targets, v, st, o), BindTargets(s, targets, isStaged), gone)
    decreases targets
  {
    if targets != [] {
      BoundOne(ever, targets[0], v, s, st, o.now.pick, isStaged, gone);
      BoundAll(ever, targets[1..], v, Rebound(s, BoundNames(targets[0]), isStaged),
               BindTo(targets[0], v, st, o.now.pick), Sub(o, 0), isStaged, gone);
    }
  }

  /** The places that are going to end, counting those of the items unless the items are seen from inside. */
  function Ending(binders: bool, gone: set<Path>, places: set<Path>): set<Path> {
    if binders then gone else gone + places
  }

  /** The first item: with `binders` its names are private inside the `with`, without them no name that it binds or
      that lies in its place is trusted. */
  lemma {:induction false} EnterFirst(ever: bool, binders: bool, item: WithItem, s: set<string>, st: State, o: Oracle,
                                      gone: set<Path>)
    requires st.out.Running? && Consistent(ever, st, s, gone) && gone <= st.made && (ever ==> binders)
    requires Tick(Eval(item.context, st, Sub(o, 0)).1, o).out.Running?
    ensures var (v, st1) := Eval(item.context, st, Sub(o, 0));
      var binder := IsBinderCall(item.context);
      var w := if binder then v else o.now.value;
      var places := if binder then {v.path} else {};
      && Ending(binders, gone, places) <= st1.made
      && Consistent(ever, BindTo(item.target, w, st1, o.now.pick), EnterOne(binders, item, s),
                    Ending(binders, gone, places))
  {
    var (v, st1) := Eval(item.context, st, Sub(o, 0));
    var binder := IsBinderCall(item.context);
    var w := if binder then v else o.now.value;
    ConsistentLater(ever, st, st1, s, gone);
    if binders {
      if binder { StagingValue(ever, item.context, s, st, Sub(o, 0), gone); }
      BoundOne(ever, item.target, w, s, st1, o.now.pick, binder, gone);
      assert EnterOne(binders, item, s) == Rebound(s, BoundNames(item.target), binder) || ever || binder;
    } else {
      var places := if binder then {v.path} else {};
      forall x | x in s ensures x in st1.env && Private(st1.env[x], Counted(ever, st1, gone + places)) {
        var root :| root in Counted(ever, st, gone) && Under(root, st.env[x].path);
        assert root in Counted(ever, st1, gone + places);
      }
      BoundOne(ever, item.target, w, s, st1, o.now.pick, false, gone + places);
    }
  }

  /** Entering the items of a `with`. */
  lemma {:induction false} EnterFits(ever: bool, binders: bool, items: seq<WithItem>, s: set<string>, st: State,
                                     o: Oracle, gone: set<Path>)
    requires st.out.Running? && Consistent(ever, st, s, gone) && gone <= st.made && (ever ==> binders)
    ensures var r := Enter(items, st, o);
      var ending := Ending(binders, gone, r.places);
      if r.st.out.Running? then Consistent(ever, r.st, AfterEnter(binders, items, s), ending)
      else EnterRaised(binders, items, s).Names? && Consistent(ever, r.st, EnterRaised(binders, items, s).s, ending)
    decreases items
  {
    if items != [] {
      var item := items[0];
      var (v, st0) := Eval(item.context, st, Sub(o, 0));
      var st1 := Tick(st0, o);
      ConsistentLater(ever, st, st1, s, gone);
      if st1.out.Running? {
        EnterFirst(ever, binders, item, s, st, o, gone);
        var binder := IsBinderCall(item.context);
        var w := if binder then v else o.now.value;
        var places := if binder then {v.path} else {};
        var rest := Enter(items[1..], BindTo(item.target, w, st1, o.now.pick), Sub(o, 1));
        EnterFits(ever, binders, items[1..], EnterOne(binders, item, s), BindTo(item.target, w, st1, o.now.pick),
                  Sub(o, 1), Ending(binders, gone, places));
        assert Ending(binders, Ending(binders, gone, places), rest.places)
            == Ending(binders, gone, rest.places + places);
      }
    }
  }

  /** An exception while entering that can be swallowed. */
  lemma {:induction false} EnterSwallows(ever: bool, binders: bool, items: seq<WithItem>, s: set<string>, st: State,
                                         o: Oracle, gone: set<Path>, swallows: bool)
    requires st.out.Running? && Consistent(ever, st, s, gone) && gone <= st.made && (ever ==> binders)
    ensures var r := Enter(items, st, o);
      var m := EnterSwallowed(binders, items, s, swallows);
      if r.st.out.Running? then r.swallows == MaySwallow(items)
      else swallows || r.swallows ==>
        m.Names? && Consistent(ever, r.st, m.s, Ending(binders, gone, r.places))
    decreases items
  {
    if items != [] {
      var item := items[0];
      var (v, st0) := Eval(item.context, st, Sub(o, 0));
      var st1 := Tick(st0, o);
      ConsistentLater(ever, st, st1, s, gone);
      if st1.out.Running? {
        EnterFirst(ever, binders, item, s, st, o, gone);
        var binder := IsBinderCall(item.context);
        var w := if binder then v else o.now.value;
        var places := if binder then {v.path} else {};
        var rest := Enter(items[1..], BindTo(item.target, w, st1, o.now.pick), Sub(o, 1));
        EnterSwallows(ever, binders, items[1..], EnterOne(binders, item, s), BindTo(item.target, w, st1, o.now.pick),
                      Sub(o, 1), Ending(binders, gone, places), swallows || !binder);
        assert Ending(binders, Ending(binders, gone, places), rest.places)
            == Ending(binders, gone, rest.places + places);
      }
    }
  }

  // ----- statements

  /** Any statement can raise before it has bound anything. */
  lemma {:induction false} RaisedAtOnce(ever: bool, stmt: Stmt, s: set<string>)
    ensures Follow(ever, stmt, s).raised.Names? && Follow(ever, stmt, s).raised.s <= s
  {
    hide FollowB, EnterRaised, FinalFlow;
  }

  /** At the end of a run of a statement, the names that the reference says are private. */
  lemma {:induction false} StmtFits(ever: bool, stmt: Stmt, s: set<string>, start: State, o: Oracle, gone: set<Path>)
    requires start.out.Running? && Consistent(ever, start, s, gone) && gone <= start.made
    ensures Fits(ever, Exec(stmt, start, o), Follow(ever, stmt, s), gone)
    decreases stmt
  {
    hide Eval, EvalAll, ExecB, ExecLoop, ExecTry, ExecDef, ExecClass, Enter, Leave, WithFlow, LoopNames, LoopFlow,
         FinalFlow, FollowB;
    var st := Tick(start, o);
    assert Consistent(ever, st, s, gone);
    RaisedAtOnce(ever, stmt, s);
    if st.out.Running? {
      match stmt
      case With(_, _) => WithFits(ever, stmt, s, st, o, gone);
      case If(_, _, _) => IfFits(ever, stmt, s, st, o, gone);
      case For(_, _, _, _) => ForFits(ever, stmt, s, st, o, gone);
      case While(_, _, _) => WhileFits(ever, stmt, s, st, o, gone);
      case Try(_, _, _, _) => TryFits(ever, stmt, s, st, o, gone);
      case Def(_, _, _, _) => DefFits(ever, stmt, s, st, o, gone);
      case Class(_, _, _, _) => ClassFits(ever, stmt, s, st, o, gone);
      case _ => SimpleFits(ever, stmt, s, start, o, gone);
    }
  }

  lemma {:induction false} SimpleFits(ever: bool, stmt: Stmt, s: set<string>, start: State, o: Oracle, gone: set<Path>)
    requires start.out.Running? && Consistent(ever, start, s, gone) && gone <= start.made
    requires stmt.AnnOnly? || stmt.Break? || stmt.Continue? || stmt.ExprStmt? || stmt.Return? || stmt.Raise?
             || stmt.Rebind? || stmt.Assign?
    ensures Fits(ever, Exec(stmt, start, o), Follow(ever, stmt, s), gone)
  {
    hide Eval, EvalAll, BindTargets;
    var st := Tick(start, o);
    if st.out.Running? {
      match stmt
      case ExprStmt(e) => ConsistentLater(ever, st, Eval(e, st, Sub(o, 0)).1, s, gone);
      case Return(e) => ConsistentLater(ever, st, Eval(e, st, Sub(o, 0)).1, s, gone);
      case Raise(e) => ConsistentLater(ever, st, Eval(e, st, Sub(o, 0)).1, s, gone);
      case Rebind(names, exprs) => ConsistentLater(ever, st, EvalAll(exprs, st, Sub(o, 0)).1, s, gone);
      case Assign(targets, value) => AssignFits(ever, targets, value, s, st, o, gone);
      case _ =>
    }
  }

  lemma {:induction false} IfFits(ever: bool, stmt: Stmt, s: set<string>, st: State, o: Oracle, gone: set<Path>)
    requires stmt.If? && st.out.Running? && Consistent(ever, st, s, gone) && gone <= st.made
    ensures Fits(ever, ExecB(if o.now.branch then stmt.body else stmt.orelse, Eval(stmt.test, st, Sub(o, 0)).1,
                             Sub(o, 1)), Follow(ever, stmt, s), gone)
    decreases stmt, 0
  {
    var st1 := Eval(stmt.test, st, Sub(o, 0)).1;
    ConsistentLater(ever, st, st1, s, gone);
    var block := if o.now.branch then stmt.body else stmt.orelse;
    BlockFits(ever, block, s, st1, Sub(o, 1), gone);
    var end := ExecB(block, st1, Sub(o, 1));
    var f, g := FollowB(ever, stmt.body, s), FollowB(ever, stmt.orelse, s);
    if !st1.out.Running? {
      FitsLeft(ever, end, DEAD.(raised := Names(s)), Both(f, g), gone);
    } else {
      if o.now.branch { FitsLeft(ever, end, f, g, gone); } else { FitsRight(ever, end, f, g, gone); }
      FitsRight(ever, end, DEAD.(raised := Names(s)), Both(f, g), gone);
    }
  }

  lemma {:induction false} ForFits(ever: bool, stmt: Stmt, s: set<string>, st: State, o: Oracle, gone: set<Path>)
    requires stmt.For? && st.out.Running? && Consistent(ever, st, s, gone) && gone <= st.made
    ensures var st1 := Eval(stmt.iter, st, Sub(o, 0)).1;
      Fits(ever, AfterLoop(stmt.orelse, ExecLoop(BoundNames(stmt.target), [], stmt.body, o.now.count, st1, Sub(o, 1)),
                           Sub(o, 2)), Follow(ever, stmt, s), gone)
    decreases stmt, 1
  {
    var st1 := Eval(stmt.iter, st, Sub(o, 0)).1;
    ConsistentLater(ever, st, st1, s, gone);
    LoopFits(ever, stmt, BoundNames(stmt.target), [], s, st1, o, gone);
  }

  lemma {:induction false} WhileFits(ever: bool, stmt: Stmt, s: set<string>, st: State, o: Oracle, gone: set<Path>)
    requires stmt.While? && st.out.Running? && Consistent(ever, st, s, gone) && gone <= st.made
    ensures Fits(ever, AfterLoop(stmt.orelse, ExecLoop({}, [stmt.test], stmt.body, o.now.count, st, Sub(o, 1)),
                                 Sub(o, 2)), Follow(ever, stmt, s), gone)
    decreases stmt, 1
  {
    var head := LoopNames(ever, {}, stmt.body, s);
    assert head - {} == head;
    LoopFits(ever, stmt, {}, [stmt.test], s, st, o, gone);
  }

  lemma {:induction false} AssignFits(ever: bool, targets: seq<Target>, value: Expr, s: set<string>, st: State,
                                      o: Oracle, gone: set<Path>)
    requires st.out.Running? && Consistent(ever, st, s, gone) && gone <= st.made
    ensures var (v, st1) := Eval(value, st, Sub(o, 0));
      Fits(ever, if st1.out.Running? then BindAll(targets, v, st1, Sub(o, 1)) else st1,
           Simple(s, BindTargets(s, targets, IsStagingExpr(value, s))), gone)
  {
    var (v, st1) := Eval(value, st, Sub(o, 0));
    ConsistentLater(ever, st, st1, s, gone);
    if st1.out.Running? {
      if IsStagingExpr(value, s) { StagingValue(ever, value, s, st, Sub(o, 0), gone); }
      BoundAll(ever, targets, v, s, st1, Sub(o, 1), IsStagingExpr(value, s), gone);
    }
  }

  /** After a `with`: the body is followed with the places of the items taken for gone, as they are afterwards. */
  lemma {:induction false} WithFits(ever: bool, stmt: Stmt, s: set<string>, st: State, o: Oracle, gone: set<Path>)
    requires stmt.With? && st.out.Running? && Consistent(ever, st, s, gone) && gone <= st.made
    ensures var r := Enter(stmt.items, st, Sub(o, 0));
      Fits(ever, Leave(r, ExecB(stmt.body, r.st, Sub(o, 1)), Sub(o, 2)), Follow(ever, stmt, s), gone)
    decreases stmt, 0
  {
    var r := Enter(stmt.items, st, Sub(o, 0));
    var ending := Ending(ever, gone, r.places);
    EnterFits(ever, ever, stmt.items, s, st, Sub(o, 0), gone);
    EnterSwallows(ever, ever, stmt.items, s, st, Sub(o, 0), gone, false);
    var st2 := ExecB(stmt.body, r.st, Sub(o, 1));
    var body := FollowB(ever, stmt.body, AfterEnter(ever, stmt.items, s));
    if r.st.out.Running? {
      BlockFits(ever, stmt.body, AfterEnter(ever, stmt.items, s), r.st, Sub(o, 1), ending);
      LeaveFits(ever, stmt.items, s, body, r, st2, Sub(o, 2), gone, At(body, st2.out).s);
    } else {
      RaisedEntering(ever, stmt.items, s, body, r, Sub(o, 2), gone);
    }
  }

  /** Once the places have ended, what was consistent without them is consistent. */
  lemma {:induction false} PlacesEnd(ever: bool, r: Entered, st: State, o: Oracle, s: set<string>, gone: set<Path>)
    requires Consistent(ever, st, s, Ending(ever, gone, r.places))
    ensures Consistent(ever, Leave(r, st, o), s, gone)
  {
    assert ever || st.made - st.ended - (gone + r.places) == st.made - (st.ended + r.places) - gone;
  }

  lemma {:induction false} LeaveFits(ever: bool, items: seq<WithItem>, s: set<string>, body: Flow, r: Entered,
                                     st: State, o: Oracle, gone: set<Path>, names: set<string>)
    requires At(body, st.out) == Names(names) && Consistent(ever, st, names, Ending(ever, gone, r.places))
    requires r.swallows == MaySwallow(items)
    ensures Fits(ever, Leave(r, st, o), WithFlow(ever, items, s, body), gone)
  {
    PlacesEnd(ever, r, st, o, names, gone);
    var end := Leave(r, st, o);
    assert Ends(body).Names? && Ends(body).s <= names;
    var m := At(WithFlow(ever, items, s, body), end.out);
    assert m.Names? && m.s <= names;
  }

  lemma {:induction false} RaisedEntering(ever: bool, items: seq<WithItem>, s: set<string>, body: Flow, r: Entered,
                                          o: Oracle, gone: set<Path>)
    requires r.st.out.Raised? && EnterRaised(ever, items, s).Names?
    requires Consistent(ever, r.st, EnterRaised(ever, items, s).s, Ending(ever, gone, r.places))
    requires r.swallows ==>
      (EnterSwallowed(ever, items, s, false).Names?
       && Consistent(ever, r.st, EnterSwallowed(ever, items, s, false).s, Ending(ever, gone, r.places)))
    ensures Fits(ever, Leave(r, r.st, o), WithFlow(ever, items, s, body), gone)
  {
    PlacesEnd(ever, r, r.st, o, EnterRaised(ever, items, s).s, gone);
    var end := Leave(r, r.st, o);
    if end.out.Running? { PlacesEnd(ever, r, r.st, o, EnterSwallowed(ever, items, s, false).s, gone); }
  }

  lemma {:induction false} BlockFits(ever: bool, block: seq<Stmt>, s: set<string>, st: State, o: Oracle,
                                     gone: set<Path>)
    requires Consistent(ever, st, s, gone) && gone <= st.made && (st.out.Running? || st.out.Raised?)
    ensures st.out.Running? ==> Fits(ever, ExecB(block, st, o), FollowB(ever, block, s), gone)
    decreases block, 0
  {
    if block != [] && st.out.Running? {
      var f := Follow(ever, block[0], s);
      var st1 := Exec(block[0], st, Sub(o, 0));
      StmtFits(ever, block[0], s, st, Sub(o, 0), gone);
      if st1.out.Running? {
        BlockFits(ever, block[1..], f.next.s, st1, Sub(o, 1), gone);
      }
    }
  }

  lemma {:induction false} AnyBound(ever: bool, names: set<string>, s: set<string>, st: State, o: Oracle,
                                    gone: set<Path>)
    requires Consistent(ever, st, s, gone)
    ensures Consistent(ever, BindAny(names, st, o), s - names, gone)
  {
  }

  /** How a loop ends whose head names are kept by every round. */
  ghost predicate RoundsEnd(ever: bool, st: State, head: set<string>, f: Flow, gone: set<Path>) {
    match st.out
    case Running => Consistent(ever, st, head, gone)
    case Raised => Fits(ever, st, DEAD.(raised := Meet(Names(head), f.raised)), gone)
    case Continued => false
    case _ => Fits(ever, st, f, gone)
  }

  lemma {:induction false} RoundsFit(ever: bool, targets: set<string>, tests: seq<Expr>, body: seq<Stmt>,
                                     head: set<string>, count: nat, start: State, o: Oracle, gone: set<Path>)
    requires start.out.Running? && Consistent(ever, start, head, gone) && gone <= start.made
    requires Kept(head, FollowB(ever, body, head - targets)) == head
    ensures RoundsEnd(ever, ExecLoop(targets, tests, body, count, start, o), head,
                      FollowB(ever, body, head - targets), gone)
    decreases body, 1, count
  {
    var f := FollowB(ever, body, head - targets);
    var st := Tick(EvalAll(tests, start, Sub(o, 0)).1, o);
    ConsistentLater(ever, start, st, head, gone);
    if count > 0 && st.out.Running? {
      var st0 := BindAny(targets, st, o);
      AnyBound(ever, targets, head, st, o, gone);
      BlockFits(ever, body, head - targets, st0, Sub(o, 1), gone);
      var st1 := ExecB(body, st0, Sub(o, 1));
      if st1.out.Running? || st1.out.Continued? {
        RoundsFit(ever, targets, tests, body, head, count - 1, st1.(out := Running), Sub(o, 2), gone);
      }
    }
  }

  lemma {:induction false} LoopFits(ever: bool, loop: Stmt, targets: set<string>, tests: seq<Expr>, s: set<string>,
                                    st: State, o: Oracle, gone: set<Path>)
    requires (loop.For? || loop.While?) && Consistent(ever, st, s, gone) && gone <= st.made
    requires st.out.Running? || st.out.Raised?
    ensures var head := LoopNames(ever, targets, loop.body, s);
      Fits(ever, AfterLoop(loop.orelse, ExecLoop(targets, tests, loop.body, o.now.count, st, Sub(o, 1)), Sub(o, 2)),
           LoopFlow(head, FollowB(ever, loop.body, head - targets), FollowB(ever, loop.orelse, head)), gone)
    decreases loop, 0
  {
    var head := LoopNames(ever, targets, loop.body, s);
    var f, g := FollowB(ever, loop.body, head - targets), FollowB(ever, loop.orelse, head);
    Fewer(ever, st, s, head, gone);
    LoopFixed(ever, targets, loop.body, s);
    if st.out.Running? {
      RoundsFit(ever, targets, tests, loop.body, head, o.now.count, st, Sub(o, 1), gone);
      var st1 := ExecLoop(targets, tests, loop.body, o.now.count, st, Sub(o, 1));
      if st1.out.Running? { BlockFits(ever, loop.orelse, head, st1, Sub(o, 2), gone); }
      LoopEnds(ever, st1, AfterLoop(loop.orelse, st1, Sub(o, 2)), head, f, g, gone);
    } else {
      LoopEnds(ever, st, st, head, f, g, gone);
    }
  }

  lemma {:induction false} LoopEnds(ever: bool, st: State, end: State, head: set<string>, f: Flow, g: Flow,
                                    gone: set<Path>)
    requires RoundsEnd(ever, st, head, f, gone) || (st.out.Raised? && Consistent(ever, st, head, gone))
    requires st.out.Running? ==> Fits(ever, end, g, gone)
    requires !st.out.Running? ==> end == if st.out.Broke? then st.(out := Running) else st
    ensures Fits(ever, end, LoopFlow(head, f, g), gone)
  {
    var m := At(LoopFlow(head, f, g), end.out);
    match st.out {
      case Running => assert m.Names? && m.s <= At(g, end.out).s;
      case Raised => assert m.Names?;
      case Returned => assert m.Names? && m.s <= f.returned.s;
      case Broke => assert m.Names? && m.s <= f.broke.s;
    }
  }

  /** Handlers start from any point at which the body can raise. */
  lemma {:induction false} HandlerFits(ever: bool, handlers: seq<Handler>, k: nat, s: set<string>, st: State,
                                       o: Oracle, gone: set<Path>)
    requires k < |handlers| && st.out.Running? && Consistent(ever, st, s, gone) && gone <= st.made
    ensures Fits(ever, ExecB(handlers[k].body, st, o), FollowH(ever, handlers, s), gone)
    decreases handlers, 0
  {
    if k == 0 {
      BlockFits(ever, handlers[0].body, s, st, o, gone);
      FitsLeft(ever, ExecB(handlers[0].body, st, o), FollowB(ever, handlers[0].body, s),
               FollowH(ever, handlers[1..], s), gone);
    } else {
      HandlerFits(ever, handlers[1..], k - 1, s, st, o, gone);
      FitsRight(ever, ExecB(handlers[k].body, st, o), FollowB(ever, handlers[0].body, s),
                FollowH(ever, handlers[1..], s), gone);
    }
  }

  lemma {:induction false} PendingFits(ever: bool, stmt: Stmt, s: set<string>, st: State, o: Oracle, gone: set<Path>)
    requires stmt.Try? && st.out.Running? && Consistent(ever, st, s, gone) && gone <= st.made
    ensures Fits(ever, ExecTry(stmt, st, o), Pending(ever, stmt, s), gone)
    decreases stmt, 0
  {
    var f := FollowB(ever, stmt.body, s);
    var h := if f.raised.Never? then DEAD else FollowH(ever, stmt.handlers, f.raised.s);
    var g := FollowFrom(ever, stmt.orelse, f.next);
    BlockFits(ever, stmt.body, s, st, Sub(o, 0), gone);
    var st1 := ExecB(stmt.body, st, Sub(o, 0));
    var end := ExecTry(stmt, st, o);
    if st1.out.Raised? && stmt.handlers != [] && o.now.branch {
      var k := o.now.count % |stmt.handlers|;
      HandlerFits(ever, stmt.handlers, k, f.raised.s, st1.(out := Running), Sub(o, 1), gone);
      FitsLeft(ever, end, h, g, gone);
      FitsRight(ever, end, f.(next := Never), Both(h, g), gone);
    } else if st1.out.Running? {
      BlockFits(ever, stmt.orelse, f.next.s, st1, Sub(o, 1), gone);
      FitsRight(ever, end, h, g, gone);
      FitsRight(ever, end, f.(next := Never), Both(h, g), gone);
    } else {
      FitsLeft(ever, end, f.(next := Never), Both(h, g), gone);
    }
  }

  lemma {:induction false} TryFits(ever: bool, stmt: Stmt, s: set<string>, st: State, o: Oracle, gone: set<Path>)
    requires stmt.Try? && st.out.Running? && Consistent(ever, st, s, gone) && gone <= st.made
    ensures var st2 := ExecTry(stmt, st, o);
      Fits(ever, Finally(st2, ExecB(stmt.final, st2.(out := Running), Sub(o, 2))), Follow(ever, stmt, s), gone)
    decreases stmt, 1
  {
    var pending := Pending(ever, stmt, s);
    PendingFits(ever, stmt, s, st, o, gone);
    var st2 := ExecTry(stmt, st, o);
    var m := At(pending, st2.out);
    BlockFits(ever, stmt.final, m.s, st2.(out := Running), Sub(o, 2), gone);
    var st3 := ExecB(stmt.final, st2.(out := Running), Sub(o, 2));
    FinalFits(ever, stmt.final, pending, st2, st3, gone);
    FitsRight(ever, Finally(st2, st3), DEAD.(raised := Names(s)), FinalFlow(ever, stmt.final, pending), gone);
  }

  lemma {:induction false} FinalFits(ever: bool, final: seq<Stmt>, pending: Flow, before: State, after: State,
                                     gone: set<Path>)
    requires At(pending, before.out).Names?
    requires Fits(ever, after, FollowB(ever, final, At(pending, before.out).s), gone)
    ensures Fits(ever, Finally(before, after), FinalFlow(ever, final, pending), gone)
  {
    hide FollowB;
    var a, b, c := FollowFrom(ever, final, pending.next), FollowFrom(ever, final, pending.raised),
                   FollowFrom(ever, final, pending.returned);
    var d, e := FollowFrom(ever, final, pending.broke), FollowFrom(ever, final, pending.continued);
    var through, own := Flow(a.next, b.next, c.next, d.next, e.next), Both(Both(a, b), Both(c, Both(d, e)));
    var end := Finally(before, after);
    if after.out.Running? {
      FitsLeft(ever, end, through, own.(next := Never), gone);
    } else {
      match before.out {
        case Running => FitsLeft(ever, end, a, b, gone);
        case Raised => FitsRight(ever, end, a, b, gone);
        case Returned => FitsLeft(ever, end, c, Both(d, e), gone);
        case Broke =>
          FitsLeft(ever, end, d, e, gone);
          FitsRight(ever, end, c, Both(d, e), gone);
        case Continued =>
          FitsRight(ever, end, d, e, gone);
          FitsRight(ever, end, c, Both(d, e), gone);
      }
      if before.out.Running? || before.out.Raised? {
        FitsLeft(ever, end, Both(a, b), Both(c, Both(d, e)), gone);
      } else {
        FitsRight(ever, end, Both(a, b), Both(c, Both(d, e)), gone);
      }
      FitsRight(ever, end, through, own.(next := Never), gone);
    }
  }

  lemma {:induction false} ConsistentEnv(ever: bool, st: State, st': State, s: set<string>, gone: set<Path>)
    requires Consistent(ever, st, s, gone) && Later(st, st')
    ensures Consistent(ever, st'.(env := st.env), s, gone)
  {
    ConsistentLater(ever, st, st'.(env := st.env), s, gone);
  }

  lemma {:induction false} DefFits(ever: bool, stmt: Stmt, s: set<string>, st: State, o: Oracle, gone: set<Path>)
    requires stmt.Def? && st.out.Running? && Consistent(ever, st, s, gone)
    ensures Fits(ever, ExecDef(stmt, st, o), Follow(ever, stmt, s), gone)
  {
    var st1 := EvalAll(stmt.decorators, st, Sub(o, 0)).1;
    var st2 := EvalAll(stmt.defaults, st1, Sub(o, 1)).1;
    LaterTrans(st, st1, st2);
    ConsistentLater(ever, st, st2, s, gone);
    if st2.out.Running? {
      var st3 := RunBody(stmt.body, o.now.count, st2, Sub(o, 2));
      ConsistentLater(ever, st2, st3, s, gone);
      AnyBound(ever, {stmt.name}, s, st3, o, gone);
    }
  }

  lemma {:induction false} ClassFits(ever: bool, stmt: Stmt, s: set<string>, st: State, o: Oracle, gone: set<Path>)
    requires stmt.Class? && st.out.Running? && Consistent(ever, st, s, gone) && gone <= st.made
    ensures Fits(ever, ExecClass(stmt, st, o), Follow(ever, stmt, s), gone)
    decreases stmt, 0
  {
    var st1 := EvalAll(stmt.decorators, st, Sub(o, 0)).1;
    var st2 := EvalAll(stmt.bases, st1, Sub(o, 1)).1;
    LaterTrans(st, st1, st2);
    ConsistentLater(ever, st, st2, s, gone);
    var st3 := ExecB(stmt.body, st2, Sub(o, 2));
    ConsistentEnv(ever, st2, st3, s, gone);
    if st2.out.Running? {
      BlockFits(ever, stmt.body, s, st2, Sub(o, 2), gone);
      AnyBound(ever, {stmt.name}, s, st3.(env := st2.env), o, gone);
    }
  }
}
