/** Building runs into a `with` that leave a given name outside, seen from inside or from after the `with`. */
module WithWitness {
  import opened Common
  import opened PurePaths
  import opened PyAst
  import opened WriteScanner
  import opened PyRuns
  import opened StagingFlow
  import opened FlowSoundness
  import opened RunSoundness
  import opened PyLiterals
  import opened RunWitness
  import opened ExprWitness
  import opened StmtWitness

  /** An entered `with`: what its body starts from. */
  ghost predicate Inside(ever: bool, binders: bool, r: Entered, items: seq<WithItem>, goal: Option<string>,
                         gone: set<Path>, n: nat) {
    var ending := Ending(binders, gone, r.places);
    r.swallows == MaySwallow(items) && Start(ever, r.st, goal, ending, n)
  }

  ghost predicate EnterAble(ever: bool, binders: bool, items: seq<WithItem>, src: Option<string>,
                            goal: Option<string>, n: nat) {
    forall st, gone | Start(ever, st, src, gone, n) ::
      exists o :: Inside(ever, binders, Enter(items, st, o), items, goal, gone, n) && Later(st, Enter(items, st, o).st)
  }

  /** The first item entered with `x`, if it is bound, outside. */
  lemma {:induction false} ItemLoses(ever: bool, binders: bool, item: WithItem, st: State, x: Option<string>,
                                     gone: set<Path>, n: nat) returns (a: Oracle)
    requires Fair(item.context, n) && (ever ==> binders) && Ready(st, n) && gone <= st.made
    requires if x.Some? && x.value in BoundNames(item.target) then !(binders && IsBinderCall(item.context))
             else Missing(ever, st, x, gone)
    ensures Good(Eval(item.context, st, a), st, n)
    ensures var (v, st1) := Eval(item.context, st, a);
      var binder := IsBinderCall(item.context);
      Start(ever, BindTo(item.target, if binder then v else OUT, st1, QUIET.now.pick), x,
            Ending(binders, gone, if binder then {v.path} else {}), n)
  {
    a := EvalRuns(item.context, st, n);
    var (v, st1) := Eval(item.context, st, a);
    if !(x.Some? && x.value in BoundNames(item.target)) { MissingLater(ever, x, st, st1, gone, gone, n); }
    hide Eval, Fair, IsBinderCall, Missing, Ready;
    ItemStarts(ever, binders, item, v, st1, x, gone, n);
  }

  lemma {:induction false} ItemStarts(ever: bool, binders: bool, item: WithItem, v: Value, st: State,
                                      x: Option<string>, gone: set<Path>, n: nat)
    requires (ever ==> binders) && Ready(st, n) && gone <= st.made && Tame(v, st.made, n)
    requires IsBinderCall(item.context) ==> v.Place? && v.path in st.made
    requires if x.Some? && x.value in BoundNames(item.target) then !(binders && IsBinderCall(item.context))
             else Missing(ever, st, x, gone)
    ensures var binder := IsBinderCall(item.context);
      Start(ever, BindTo(item.target, if binder then v else OUT, st, QUIET.now.pick), x,
            Ending(binders, gone, if binder then {v.path} else {}), n)
  {
    hide IsBinderCall;
    var binder := IsBinderCall(item.context);
    var ending := Ending(binders, gone, if binder then {v.path} else {});
    CountedRoots(ever, st, ending, n);
    OutLost(Counted(ever, st, ending), st.made, n);
    if x.Some? && x.value in BoundNames(item.target) {
      if binder { PlaceLost(ever, v.path, st, ending, n); }
    } else {
      MissingLater(ever, x, st, st, gone, ending, n);
    }
  }

  /** A place that is about to end lies in no other. */
  lemma {:induction false} PlaceLost(ever: bool, root: Path, st: State, gone: set<Path>, n: nat)
    requires !ever && root in gone && root in st.made && forall p | p in st.made :: IsRoot(p, n)
    ensures Lost(Place(root), Counted(ever, st, gone))
  {
    forall p | p in Counted(ever, st, gone) ensures !Under(p, root) {
      UnderRoot(p, root, n);
      assert p == Path(true, p.parts) && p.parts == [p.parts[0]] && root.parts == [root.parts[0]];
    }
  }

  lemma {:induction false} EnterLoses(ever: bool, binders: bool, items: seq<WithItem>, s: set<string>,
                                      goal: Option<string>, n: nat) returns (src: Option<string>)
    requires FairItems(items, n) && (ever ==> binders) && Unstaged(goal, AfterEnter(binders, items, s))
    ensures Before(src, goal, s) && EnterAble(ever, binders, items, src, goal, n)
    decreases items
  {
    if items == [] {
      src := goal;
      forall st, gone | Start(ever, st, src, gone, n)
        ensures exists o :: Inside(ever, binders, Enter(items, st, o), items, goal, gone, n)
                            && Later(st, Enter(items, st, o).st)
      {
        assert gone + {} == gone;
        assert Inside(ever, binders, Enter(items, st, QUIET), items, goal, gone, n);
      }
    } else {
      var item := items[0];
      var mid := EnterLoses(ever, binders, items[1..], EnterOne(binders, item, s), goal, n);
      src := if mid.Some? && mid.value in BoundNames(item.target) then None else mid;
      EnterNext(ever, binders, items, src, mid, goal, n, s);
    }
  }

  /** One item entered. */
  lemma {:induction false} EnterStep(items: seq<WithItem>, st: State, o: Oracle)
    requires items != [] && st.out.Running? && !o.now.raises && Eval(items[0].context, st, Sub(o, 0)).1.out.Running?
    ensures var (v, st1) := Eval(items[0].context, st, Sub(o, 0));
      var binder := IsBinderCall(items[0].context);
      var rest := Enter(items[1..], BindTo(items[0].target, if binder then v else o.now.value, st1, o.now.pick),
                        Sub(o, 1));
      Enter(items, st, o)
        == Entered(rest.st, rest.places + (if binder then {v.path} else {}), rest.swallows || !binder)
  {
  }

  lemma {:induction false} EnterNext(ever: bool, binders: bool, items: seq<WithItem>, src: Option<string>,
                                     mid: Option<string>, goal: Option<string>, n: nat, s: set<string>)
    requires items != [] && FairItems(items, n) && (ever ==> binders)
    requires Unstaged(mid, EnterOne(binders, items[0], s))
    requires src == if mid.Some? && mid.value in BoundNames(items[0].target) then None else mid
    requires EnterAble(ever, binders, items[1..], mid, goal, n)
    ensures EnterAble(ever, binders, items, src, goal, n)
  {
    hide Enter, Eval, BindTo, Start, Inside, Good, Later;
    var item := items[0];
    forall st, gone | Start(ever, st, src, gone, n)
      ensures exists o :: Inside(ever, binders, Enter(items, st, o), items, goal, gone, n)
                          && Later(st, Enter(items, st, o).st)
    {
      RunningNow(ever, st, src, gone, n);
      var a := ItemLoses(ever, binders, item, st, mid, gone, n);
      var (v, st1) := Eval(item.context, st, a);
      var binder := IsBinderCall(item.context);
      var places := if binder then {v.path} else {};
      var st2 := BindTo(item.target, if binder then v else OUT, st1, QUIET.now.pick);
      var b :| Inside(ever, binders, Enter(items[1..], st2, b), items[1..], goal, Ending(binders, gone, places), n)
               && Later(st2, Enter(items[1..], st2, b).st);
      var o := Oracle(QUIET.now, [a, b]);
      var r, rest := Enter(items, st, o), Enter(items[1..], st2, b);
      EnterStep(items, st, o);
      InsideNext(ever, binders, items, rest, places, goal, gone, n);
      LaterBound(st, st1, item.target, if binder then v else OUT, r.st);
    }
  }

  lemma {:induction false} InsideNext(ever: bool, binders: bool, items: seq<WithItem>, rest: Entered,
                                      places: set<Path>, goal: Option<string>, gone: set<Path>, n: nat)
    requires items != []
    requires Inside(ever, binders, rest, items[1..], goal, Ending(binders, gone, places), n)
    ensures Inside(ever, binders, Entered(rest.st, rest.places + places,
                                          rest.swallows || !IsBinderCall(items[0].context)), items, goal, gone, n)
  {
    assert Ending(binders, Ending(binders, gone, places), rest.places) == Ending(binders, gone, rest.places + places);
  }

  lemma {:induction false} RunningNow(ever: bool, st: State, src: Option<string>, gone: set<Path>, n: nat)
    requires Start(ever, st, src, gone, n)
    ensures st.out.Running? && Ready(st, n) && gone <= st.made && Missing(ever, st, src, gone)
    ensures forall a, e | Good(Eval(e, st, a), st, n) :: Eval(e, st, a).1.out.Running? && Later(st, Eval(e, st, a).1)
  {
  }

  lemma {:induction false} LaterBound(st: State, st1: State, target: Target, v: Value, end: State)
    requires Later(st, st1) && Later(BindTo(target, v, st1, QUIET.now.pick), end)
    ensures Later(st, end)
  {
  }

  // ----- exceptions while entering

  /** An exception while the items are entered, with a context manager that may swallow it if one is needed. */
  ghost predicate Fails(ever: bool, r: Entered, goal: Option<string>, gone: set<Path>, n: nat, needed: bool) {
    && r.st.out.Raised? && Ready(r.st.(out := Running), n) && Missing(ever, r.st, goal, Ending(ever, gone, r.places))
    && (needed ==> r.swallows)
  }

  ghost predicate FailAble(ever: bool, items: seq<WithItem>, src: Option<string>, goal: Option<string>, n: nat,
                           needed: bool) {
    forall st, gone | Start(ever, st, src, gone, n) ::
      exists o :: Fails(ever, Enter(items, st, o), goal, gone, n, needed)
  }

  function Failing(ever: bool, items: seq<WithItem>, s: set<string>, needed: bool, swallows: bool): Must {
    if needed then EnterSwallowed(ever, items, s, swallows) else EnterRaised(ever, items, s)
  }

  lemma {:induction false} EnterFails(ever: bool, items: seq<WithItem>, s: set<string>, goal: Option<string>, n: nat,
                                      needed: bool, swallows: bool) returns (src: Option<string>)
    requires FairItems(items, n) && Wanted(DEAD.(raised := Failing(ever, items, s, needed, swallows)), Raised, goal)
    ensures Before(src, goal, s) && FailAble(ever, items, src, goal, n, needed && !swallows)
    decreases items
  {
    var item := items[0];
    var first := if !needed || swallows then Names(s) else Never;
    var swallows' := swallows || !IsBinderCall(item.context);
    var rest := Failing(ever, items[1..], EnterOne(ever, item, s), needed, swallows');
    if first.Names? && Unstaged(goal, s) {
      src := goal;
      FailsNow(ever, items, goal, n, needed && !swallows);
    } else {
      assert rest.Names? && Unstaged(goal, rest.s);
      var mid := EnterFails(ever, items[1..], EnterOne(ever, item, s), goal, n, needed, swallows');
      src := if mid.Some? && mid.value in BoundNames(item.target) then None else mid;
      FailsLater(ever, items, src, mid, goal, n, s, needed && !swallows);
    }
  }

  lemma {:induction false} FailsNow(ever: bool, items: seq<WithItem>, goal: Option<string>, n: nat, needed: bool)
    requires items != [] && FairItems(items, n) && !needed
    ensures FailAble(ever, items, goal, goal, n, needed)
  {
    forall st, gone | Start(ever, st, goal, gone, n)
      ensures exists o :: Fails(ever, Enter(items, st, o), goal, gone, n, needed)
    {
      var a := EvalRuns(items[0].context, st, n);
      var st1 := Eval(items[0].context, st, a).1;
      MissingLater(ever, goal, st, st1, gone, Ending(ever, gone, {}), n);
      var o := Oracle(FAIL.now, [a]);
      assert Enter(items, st, o) == Entered(st1.(out := Raised), {}, false);
      assert Fails(ever, Enter(items, st, o), goal, gone, n, needed);
    }
  }

  lemma {:induction false} FailsLater(ever: bool, items: seq<WithItem>, src: Option<string>, mid: Option<string>,
                                      goal: Option<string>, n: nat, s: set<string>, needed: bool)
    requires items != [] && FairItems(items, n) && Unstaged(mid, EnterOne(ever, items[0], s))
    requires src == if mid.Some? && mid.value in BoundNames(items[0].target) then None else mid
    requires FailAble(ever, items[1..], mid, goal, n, needed && IsBinderCall(items[0].context))
    ensures FailAble(ever, items, src, goal, n, needed)
  {
    hide Enter, Eval, BindTo, Start, Fails, Good, Later;
    var item := items[0];
    var binder := IsBinderCall(item.context);
    forall st, gone | Start(ever, st, src, gone, n)
      ensures exists o :: Fails(ever, Enter(items, st, o), goal, gone, n, needed)
    {
      RunningNow(ever, st, src, gone, n);
      var a := ItemLoses(ever, ever, item, st, mid, gone, n);
      var (v, st1) := Eval(item.context, st, a);
      var places := if binder then {v.path} else {};
      var st2 := BindTo(item.target, if binder then v else OUT, st1, QUIET.now.pick);
      var b :| Fails(ever, Enter(items[1..], st2, b), goal, Ending(ever, gone, places), n, needed && binder);
      var o := Oracle(QUIET.now, [a, b]);
      EnterStep(items, st, o);
      FailsNext(ever, Enter(items[1..], st2, b), places, binder, goal, gone, n, needed);
    }
  }

  lemma {:induction false} FailsNext(ever: bool, rest: Entered, places: set<Path>, binder: bool, goal: Option<string>,
                                     gone: set<Path>, n: nat, needed: bool)
    requires Fails(ever, rest, goal, Ending(ever, gone, places), n, needed && binder)
    ensures Fails(ever, Entered(rest.st, rest.places + places, rest.swallows || !binder), goal, gone, n, needed)
  {
    assert Ending(ever, Ending(ever, gone, places), rest.places) == Ending(ever, gone, rest.places + places);
  }

  // ----- leaving

  /** Leaving ends the places that were taken for gone. */
  lemma {:induction false} LeaveEnds(ever: bool, r: Entered, st: State, goal: Option<string>, gone: set<Path>, n: nat,
                                     o: Oracle)
    requires Ready(st.(out := Running), n) && Missing(ever, st, goal, Ending(ever, gone, r.places))
    requires r.places <= st.made
    ensures EndsIn(ever, Leave(r, st, o), Leave(r, st, o).out, goal, gone, n)
  {
    assert ever || st.made - st.ended - (gone + r.places) == st.made - (st.ended + r.places) - gone;
  }
}
