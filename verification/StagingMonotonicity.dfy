/** The reference is monotone: with more private names at the start there are more at every way out, and what was quiet
    stays quiet. */
module StagingMonotonicity {
  import opened PyAst
  import opened WriteScanner
  import opened PyRuns
  import opened StagingFlow
  import opened ScannerMonotonicity

  ghost predicate Leq(a: Must, b: Must) {
    a.Never? == b.Never? && (a.Names? ==> a.s <= b.s)
  }

  ghost predicate FlowLeq(f: Flow, g: Flow) {
    && Leq(f.next, g.next) && Leq(f.raised, g.raised) && Leq(f.returned, g.returned) && Leq(f.broke, g.broke)
    && Leq(f.continued, g.continued)
  }

  lemma {:induction false} BothMonotone(f: Flow, g: Flow, f': Flow, g': Flow)
    requires FlowLeq(f, f') && FlowLeq(g, g')
    ensures FlowLeq(Both(f, g), Both(f', g'))
  {
  }

  lemma {:induction false} EnterMonotone(ever: bool, items: seq<WithItem>, s: set<string>, t: set<string>,
                                         swallows: bool)
    requires s <= t
    ensures AfterEnter(ever, items, s) <= AfterEnter(ever, items, t)
    ensures Leq(EnterRaised(ever, items, s), EnterRaised(ever, items, t))
    ensures Leq(EnterSwallowed(ever, items, s, swallows), EnterSwallowed(ever, items, t, swallows))
    decreases items
  {
    if items != [] {
      EnterMonotone(ever, items[1..], EnterOne(ever, items[0], s), EnterOne(ever, items[0], t),
                    swallows || !IsBinderCall(items[0].context));
    }
  }

  lemma {:induction false} WithMonotone(ever: bool, items: seq<WithItem>, s: set<string>, t: set<string>, f: Flow,
                                        g: Flow)
    requires s <= t && FlowLeq(f, g)
    ensures FlowLeq(WithFlow(ever, items, s, f), WithFlow(ever, items, t, g))
  {
    EnterMonotone(ever, items, s, t, false);
  }

  lemma {:induction false} FollowMonotone(ever: bool, stmt: Stmt, s: set<string>, t: set<string>)
    requires s <= t
    ensures FlowLeq(Follow(ever, stmt, s), Follow(ever, stmt, t))
    decreases stmt, 1
  {
    hide WithFlow, FinalFlow, Pending, LoopNames, Both, FlowLeq;
    SimpleLeq(s, t, s, t);
    match stmt
    case Assign(targets, value) =>
      if IsStagingExpr(value, s) { StagingMonotone(value, s, t); }
      TargetsMonotone(targets, s, t, IsStagingExpr(value, s), IsStagingExpr(value, t));
      SimpleLeq(s, t, BindTargets(s, targets, IsStagingExpr(value, s)),
                BindTargets(t, targets, IsStagingExpr(value, t)));
    case Rebind(names, _) => SimpleLeq(s, t, s - names, t - names);
    case With(items, body) =>
      EnterMonotone(ever, items, s, t, false);
      BlockMonotone(ever, body, AfterEnter(ever, items, s), AfterEnter(ever, items, t));
      WithMonotone(ever, items, s, t, FollowB(ever, body, AfterEnter(ever, items, s)),
                   FollowB(ever, body, AfterEnter(ever, items, t)));
    case If(_, body, orelse) =>
      BlockMonotone(ever, body, s, t);
      BlockMonotone(ever, orelse, s, t);
      BothMonotone(FollowB(ever, body, s), FollowB(ever, orelse, s), FollowB(ever, body, t), FollowB(ever, orelse, t));
      BothMonotone(DEAD.(raised := Names(s)), Both(FollowB(ever, body, s), FollowB(ever, orelse, s)),
                   DEAD.(raised := Names(t)), Both(FollowB(ever, body, t), FollowB(ever, orelse, t)));
    case For(target, _, body, orelse) => LoopMonotone(ever, stmt, BoundNames(target), s, t);
    case While(_, body, orelse) =>
      LoopMonotone(ever, stmt, {}, s, t);
      assert LoopNames(ever, {}, body, s) - {} == LoopNames(ever, {}, body, s);
      assert LoopNames(ever, {}, body, t) - {} == LoopNames(ever, {}, body, t);
    case Try(_, _, _, final) =>
      PendingMonotone(ever, stmt, s, t);
      FinalMonotone(ever, final, Pending(ever, stmt, s), Pending(ever, stmt, t));
      BothMonotone(DEAD.(raised := Names(s)), FinalFlow(ever, final, Pending(ever, stmt, s)),
                   DEAD.(raised := Names(t)), FinalFlow(ever, final, Pending(ever, stmt, t)));
    case Def(name, _, _, _) => SimpleLeq(s, t, s - {name}, t - {name});
    case Class(name, _, body, _) =>
      BlockMonotone(ever, body, s, t);
      SimpleLeq(s, t, s - {name}, t - {name});
      NextLeq(ever, stmt, s, t);
    case _ =>
  }

  lemma {:induction false} SimpleLeq(s: set<string>, t: set<string>, a: set<string>, b: set<string>)
    requires s <= t && a <= b
    ensures FlowLeq(Simple(s, a), Simple(t, b)) && FlowLeq(DEAD.(raised := Names(s)), DEAD.(raised := Names(t)))
    ensures FlowLeq(DEAD.(raised := Names(s), returned := Names(s)), DEAD.(raised := Names(t), returned := Names(t)))
    ensures FlowLeq(DEAD.(raised := Names(s), broke := Names(s)), DEAD.(raised := Names(t), broke := Names(t)))
    ensures FlowLeq(DEAD.(raised := Names(s), continued := Names(s)), DEAD.(raised := Names(t), continued := Names(t)))
    ensures FlowLeq(DEAD.(next := Names(s)), DEAD.(next := Names(t)))
  {
  }

  lemma {:induction false} NextLeq(ever: bool, stmt: Stmt, s: set<string>, t: set<string>)
    requires stmt.Class? && s <= t && FlowLeq(FollowB(ever, stmt.body, s), FollowB(ever, stmt.body, t))
    ensures FlowLeq(Follow(ever, stmt, s), Follow(ever, stmt, t))
  {
  }

  lemma {:induction false} BlockMonotone(ever: bool, block: seq<Stmt>, s: set<string>, t: set<string>)
    requires s <= t
    ensures FlowLeq(FollowB(ever, block, s), FollowB(ever, block, t))
    decreases block, 0
  {
    if block != [] {
      var f, g := Follow(ever, block[0], s), Follow(ever, block[0], t);
      FollowMonotone(ever, block[0], s, t);
      if f.next.Names? { BlockMonotone(ever, block[1..], f.next.s, g.next.s); }
      BothMonotone(f.(next := Never), if f.next.Never? then DEAD else FollowB(ever, block[1..], f.next.s),
                   g.(next := Never), if g.next.Never? then DEAD else FollowB(ever, block[1..], g.next.s));
    }
  }

  lemma {:induction false} FromMonotone(ever: bool, block: seq<Stmt>, a: Must, b: Must)
    requires Leq(a, b)
    ensures FlowLeq(FollowFrom(ever, block, a), FollowFrom(ever, block, b))
    decreases block, 1
  {
    if a.Names? { BlockMonotone(ever, block, a.s, b.s); }
  }

  lemma {:induction false} HandlersMonotone(ever: bool, handlers: seq<Handler>, s: set<string>, t: set<string>)
    requires s <= t
    ensures FlowLeq(FollowH(ever, handlers, s), FollowH(ever, handlers, t))
    decreases handlers, 0
  {
    if handlers != [] {
      BlockMonotone(ever, handlers[0].body, s, t);
      HandlersMonotone(ever, handlers[1..], s, t);
      BothMonotone(FollowB(ever, handlers[0].body, s), FollowH(ever, handlers[1..], s),
                   FollowB(ever, handlers[0].body, t), FollowH(ever, handlers[1..], t));
    }
  }

  lemma {:induction false} PendingMonotone(ever: bool, stmt: Stmt, s: set<string>, t: set<string>)
    requires stmt.Try? && s <= t
    ensures FlowLeq(Pending(ever, stmt, s), Pending(ever, stmt, t))
    decreases stmt, 0
  {
    var f, f' := FollowB(ever, stmt.body, s), FollowB(ever, stmt.body, t);
    BlockMonotone(ever, stmt.body, s, t);
    if f.raised.Names? { HandlersMonotone(ever, stmt.handlers, f.raised.s, f'.raised.s); }
    FromMonotone(ever, stmt.orelse, f.next, f'.next);
    var h := if f.raised.Never? then DEAD else FollowH(ever, stmt.handlers, f.raised.s);
    var h' := if f'.raised.Never? then DEAD else FollowH(ever, stmt.handlers, f'.raised.s);
    var g, g' := FollowFrom(ever, stmt.orelse, f.next), FollowFrom(ever, stmt.orelse, f'.next);
    BothMonotone(h, g, h', g');
    BothMonotone(f.(next := Never), Both(h, g), f'.(next := Never), Both(h', g'));
  }

  lemma {:induction false} FinalMonotone(ever: bool, final: seq<Stmt>, p: Flow, q: Flow)
    requires FlowLeq(p, q)
    ensures FlowLeq(FinalFlow(ever, final, p), FinalFlow(ever, final, q))
    decreases final, 2
  {
    FromMonotone(ever, final, p.next, q.next);
    FromMonotone(ever, final, p.raised, q.raised);
    FromMonotone(ever, final, p.returned, q.returned);
    FromMonotone(ever, final, p.broke, q.broke);
    FromMonotone(ever, final, p.continued, q.continued);
    hide FollowFrom, Both, Meet, FlowLeq;
    var a, b, c := FollowFrom(ever, final, p.next), FollowFrom(ever, final, p.raised),
                   FollowFrom(ever, final, p.returned);
    var d, e := FollowFrom(ever, final, p.broke), FollowFrom(ever, final, p.continued);
    var a', b' := FollowFrom(ever, final, q.next), FollowFrom(ever, final, q.raised);
    var c', d' := FollowFrom(ever, final, q.returned), FollowFrom(ever, final, q.broke);
    var e' := FollowFrom(ever, final, q.continued);
    BothMonotone(a, b, a', b');
    BothMonotone(d, e, d', e');
    BothMonotone(c, Both(d, e), c', Both(d', e'));
    BothMonotone(Both(a, b), Both(c, Both(d, e)), Both(a', b'), Both(c', Both(d', e')));
    Diagonal(a, b, c, d, e, a', b', c', d', e');
    WithoutNext(Both(Both(a, b), Both(c, Both(d, e))), Both(Both(a', b'), Both(c', Both(d', e'))));
    BothMonotone(Flow(a.next, b.next, c.next, d.next, e.next), Both(Both(a, b), Both(c, Both(d, e))).(next := Never),
                 Flow(a'.next, b'.next, c'.next, d'.next, e'.next),
                 Both(Both(a', b'), Both(c', Both(d', e'))).(next := Never));
  }

  lemma {:induction false} Diagonal(a: Flow, b: Flow, c: Flow, d: Flow, e: Flow, a': Flow, b': Flow, c': Flow, d': Flow,
                                    e': Flow)
    requires FlowLeq(a, a') && FlowLeq(b, b') && FlowLeq(c, c') && FlowLeq(d, d') && FlowLeq(e, e')
    ensures FlowLeq(Flow(a.next, b.next, c.next, d.next, e.next), Flow(a'.next, b'.next, c'.next, d'.next, e'.next))
  {
  }

  lemma {:induction false} WithoutNext(f: Flow, g: Flow)
    requires FlowLeq(f, g)
    ensures FlowLeq(f.(next := Never), g.(next := Never))
  {
  }

  // ----- loops

  /** The names at the head of a loop are the largest set of entry names that every round keeps. */
  lemma {:induction false} LoopLargest(ever: bool, targets: set<string>, body: seq<Stmt>, s: set<string>,
                                       t: set<string>)
    requires s <= t && Kept(s, FollowB(ever, body, s - targets)) == s
    ensures s <= LoopNames(ever, targets, body, t)
    decreases body, 1, |t|
  {
    BlockMonotone(ever, body, s - targets, t - targets);
    var kept := Kept(t, FollowB(ever, body, t - targets));
    assert s <= kept;
    if kept != t {
      Shrinks(t, kept);
      LoopLargest(ever, targets, body, s, kept);
    }
  }

  lemma {:induction false} HeadMonotone(ever: bool, targets: set<string>, body: seq<Stmt>, s: set<string>,
                                        t: set<string>)
    requires s <= t
    ensures LoopNames(ever, targets, body, s) <= LoopNames(ever, targets, body, t)
    decreases body, 2
  {
    LoopFixed(ever, targets, body, s);
    LoopLargest(ever, targets, body, LoopNames(ever, targets, body, s), t);
  }

  lemma {:induction false} LoopMonotone(ever: bool, loop: Stmt, targets: set<string>, s: set<string>, t: set<string>)
    requires (loop.For? || loop.While?) && s <= t
    ensures var h, h' := LoopNames(ever, targets, loop.body, s), LoopNames(ever, targets, loop.body, t);
      FlowLeq(LoopFlow(h, FollowB(ever, loop.body, h - targets), FollowB(ever, loop.orelse, h)),
              LoopFlow(h', FollowB(ever, loop.body, h' - targets), FollowB(ever, loop.orelse, h')))
    decreases loop, 0
  {
    var h, h' := LoopNames(ever, targets, loop.body, s), LoopNames(ever, targets, loop.body, t);
    HeadMonotone(ever, targets, loop.body, s, t);
    BlockMonotone(ever, loop.body, h - targets, h' - targets);
    BlockMonotone(ever, loop.orelse, h, h');
  }

  // ----- quiet expressions

  lemma {:induction false} OtherFewer(e: Expr, s: set<string>, t: set<string>)
    requires s <= t && MayBeOther(e, t)
    ensures MayBeOther(e, s)
  {
    match e
    case Attribute(obj, attr) => if attr == "name" { OtherFewer(obj, s, t); }
    case Div(left, right) => if right.Str? { OtherFewer(left, s, t); }
    case Call(func, args, _, _) =>
      if CalleeName(func) == "Path" && args != [] && forall k | 1 <= k < |args| :: args[k].Str? {
        OtherFewer(args[0], s, t);
      }
    case _ =>
  }

  lemma {:induction false} QuietOpenMore(call: Expr, s: set<string>, t: set<string>, names: set<string>)
    requires call.Call? && s <= t && QuietOpen(call, s, names)
    ensures QuietOpen(call, t, names)
  {
    var target := OpenTarget(call, names);
    if target != [] && IsStagingExpr(target[0], s) { StagingMonotone(target[0], s, t); }
  }

  lemma {:induction false} QuietCallMore(call: Expr, s: set<string>, t: set<string>)
    requires call.Call? && s <= t && QuietCall(call, s)
    ensures QuietCall(call, t)
  {
    hide MayBeOther, QuietOpen, IsTruncatingMode, ArgOr;
    if call.func.Attribute? {
      if IsStagingExpr(call.func.obj, s) { StagingMonotone(call.func.obj, s, t); }
      if MayBeOther(call.func.obj, t) { OtherFewer(call.func.obj, s, t); }
    }
    if QuietOpen(call, s, FILE_KEYWORDS) { QuietOpenMore(call, s, t, FILE_KEYWORDS); }
    if QuietOpen(call, s, {"file"}) { QuietOpenMore(call, s, t, {"file"}); }
  }

  lemma {:induction false} QuietMore(e: Expr, s: set<string>, t: set<string>)
    requires s <= t && QuietExpr(e, s)
    ensures QuietExpr(e, t)
    decreases e
  {
    match e
    case Attribute(obj, _) => QuietMore(obj, s, t);
    case Div(left, right) =>
      QuietMore(left, s, t);
      QuietMore(right, s, t);
    case Call(func, args, keywords, _) =>
      QuietCallMore(e, s, t);
      QuietMore(func, s, t);
      QuietMoreAll(args, s, t);
      QuietMoreKeywords(keywords, s, t);
    case Compound(parts) => QuietMoreAll(parts, s, t);
    case _ =>
  }

  lemma {:induction false} QuietMoreAll(es: seq<Expr>, s: set<string>, t: set<string>)
    requires s <= t && QuietExprs(es, s)
    ensures QuietExprs(es, t)
    decreases es
  {
    if es != [] {
      QuietMore(es[0], s, t);
      QuietMoreAll(es[1..], s, t);
    }
  }

  lemma {:induction false} QuietMoreKeywords(ks: seq<Keyword>, s: set<string>, t: set<string>)
    requires s <= t && QuietKeywords(ks, s)
    ensures QuietKeywords(ks, t)
    decreases ks
  {
    if ks != [] {
      QuietMore(ks[0].value, s, t);
      QuietMoreKeywords(ks[1..], s, t);
    }
  }

  lemma {:induction false} QuietMoreItems(items: seq<WithItem>, s: set<string>, t: set<string>)
    requires s <= t && QuietItems(items, s)
    ensures QuietItems(items, t)
    decreases items
  {
    if items != [] {
      QuietMore(items[0].context, s, t);
      QuietMoreItems(items[1..], EnterOne(true, items[0], s), EnterOne(true, items[0], t));
    }
  }

  // ----- quiet statements

  lemma {:induction false} QuietMonotone(ever: bool, stmt: Stmt, s: set<string>, t: set<string>)
    requires s <= t && Quiet(ever, stmt, s)
    ensures Quiet(ever, stmt, t)
    decreases stmt, 1
  {
    hide QuietB, QuietExpr, QuietFinal, Pending, LoopNames, FollowB;
    match stmt
    case ExprStmt(e) => QuietMore(e, s, t);
    case Return(e) => QuietMore(e, s, t);
    case Raise(e) => QuietMore(e, s, t);
    case Assign(_, value) => QuietMore(value, s, t);
    case Rebind(_, exprs) => QuietMoreAll(exprs, s, t);
    case With(items, body) =>
      QuietMoreItems(items, s, t);
      EnterMonotone(true, items, s, t, false);
      QuietBlockMonotone(ever, body, AfterEnter(true, items, s), AfterEnter(true, items, t));
    case If(test, body, orelse) =>
      QuietMore(test, s, t);
      QuietBlockMonotone(ever, body, s, t);
      QuietBlockMonotone(ever, orelse, s, t);
    case For(target, iter, body, orelse) =>
      var names := BoundNames(target);
      var h, h' := LoopNames(ever, names, body, s), LoopNames(ever, names, body, t);
      QuietMore(iter, s, t);
      HeadMonotone(ever, names, body, s, t);
      QuietBlockMonotone(ever, body, h - names, h' - names);
      QuietBlockMonotone(ever, orelse, h, h');
    case While(test, body, orelse) =>
      var h, h' := LoopNames(ever, {}, body, s), LoopNames(ever, {}, body, t);
      HeadMonotone(ever, {}, body, s, t);
      QuietMore(test, h, h');
      QuietBlockMonotone(ever, body, h, h');
      QuietBlockMonotone(ever, orelse, h, h');
    case Try(_, _, _, _) => QuietTryMonotone(ever, stmt, s, t);
    case Def(_, defaults, body, decorators) =>
      QuietMoreAll(decorators, s, t);
      QuietMoreAll(defaults, s, t);
    case Class(_, bases, body, decorators) =>
      QuietMoreAll(decorators, s, t);
      QuietMoreAll(bases, s, t);
      QuietBlockMonotone(ever, body, s, t);
    case _ =>
  }

  lemma {:induction false} QuietTryMonotone(ever: bool, stmt: Stmt, s: set<string>, t: set<string>)
    requires stmt.Try? && s <= t && Quiet(ever, stmt, s)
    ensures Quiet(ever, stmt, t)
    decreases stmt, 0
  {
    var f, f' := FollowB(ever, stmt.body, s), FollowB(ever, stmt.body, t);
    BlockMonotone(ever, stmt.body, s, t);
    QuietBlockMonotone(ever, stmt.body, s, t);
    if f.raised.Names? { QuietHandlersMonotone(ever, stmt.handlers, f.raised.s, f'.raised.s); }
    QuietFromMonotone(ever, stmt.orelse, f.next, f'.next);
    var p, q := Pending(ever, stmt, s), Pending(ever, stmt, t);
    PendingMonotone(ever, stmt, s, t);
    QuietFromMonotone(ever, stmt.final, p.next, q.next);
    QuietFromMonotone(ever, stmt.final, p.raised, q.raised);
    QuietFromMonotone(ever, stmt.final, p.returned, q.returned);
    QuietFromMonotone(ever, stmt.final, p.broke, q.broke);
    QuietFromMonotone(ever, stmt.final, p.continued, q.continued);
  }

  lemma {:induction false} QuietFromMonotone(ever: bool, block: seq<Stmt>, a: Must, b: Must)
    requires Leq(a, b) && QuietFrom(ever, block, a)
    ensures QuietFrom(ever, block, b)
    decreases block, 1
  {
    if a.Names? { QuietBlockMonotone(ever, block, a.s, b.s); }
  }

  lemma {:induction false} QuietBlockMonotone(ever: bool, block: seq<Stmt>, s: set<string>, t: set<string>)
    requires s <= t && QuietB(ever, block, s)
    ensures QuietB(ever, block, t)
    decreases block, 0
  {
    if block != [] {
      QuietMonotone(ever, block[0], s, t);
      FollowMonotone(ever, block[0], s, t);
      QuietFromMonotone(ever, block[1..], Follow(ever, block[0], s).next, Follow(ever, block[0], t).next);
    }
  }

  lemma {:induction false} QuietHandlersMonotone(ever: bool, handlers: seq<Handler>, s: set<string>, t: set<string>)
    requires s <= t && QuietH(ever, handlers, s)
    ensures QuietH(ever, handlers, t)
    decreases handlers, 0
  {
    if handlers != [] {
      QuietBlockMonotone(ever, handlers[0].body, s, t);
      QuietHandlersMonotone(ever, handlers[1..], s, t);
    }
  }
}
