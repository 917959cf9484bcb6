/** The reference that the scanner is judged by: which names hold private staging paths at every way out of a
    statement, by following loops, exceptions, jumps and the end of places, which the scanner does in part only.
    It is proved sound and exact for the runs.  With `ever` a path counts as private once it lies in a place that has
    been made; without, only while that place exists. */
module StagingFlow {
  import opened PyAst
  import opened WriteScanner
  import opened PyRuns

  /** The names that hold private paths whenever a point is reached, if it ever is. */
  datatype Must = Never | Names(s: set<string>)

  function Meet(a: Must, b: Must): Must {
    if a.Never? then b else if b.Never? then a else Names(a.s * b.s)
  }

  /** One `Must` for each way a statement can end. */
  datatype Flow = Flow(next: Must, raised: Must, returned: Must, broke: Must, continued: Must)

  const DEAD := Flow(Never, Never, Never, Never, Never)

  function At(f: Flow, out: Outcome): Must {
    match out
    case Running => f.next
    case Raised => f.raised
    case Returned => f.returned
    case Broke => f.broke
    case Continued => f.continued
  }

  function Both(f: Flow, g: Flow): Flow {
    Flow(Meet(f.next, g.next), Meet(f.raised, g.raised), Meet(f.returned, g.returned), Meet(f.broke, g.broke),
         Meet(f.continued, g.continued))
  }

  /** Everything that leaves a statement at once. */
  function Ends(f: Flow): Must {
    Meet(f.next, Meet(f.raised, Meet(f.returned, Meet(f.broke, f.continued))))
  }

  /** A statement that can end normally, or raise an exception before it has bound anything. */
  function Simple(before: set<string>, after: set<string>): Flow {
    Flow(Names(after), Names(before), Never, Never, Never)
  }

  function Cut(s: set<string>, m: Must): set<string> {
    if m.Never? then s else s * m.s
  }

  // ----- the items of a `with`

  /** Seen from after the `with`, a name bound to a place that ends with it is not private. */
  function EnterOne(ever: bool, item: WithItem, s: set<string>): set<string> {
    Rebound(s, BoundNames(item.target), ever && IsBinderCall(item.context))
  }

  function AfterEnter(ever: bool, items: seq<WithItem>, s: set<string>): set<string> {
    if items == [] then s else AfterEnter(ever, items[1..], EnterOne(ever, items[0], s))
  }

  /** An exception while the items are entered. */
  function EnterRaised(ever: bool, items: seq<WithItem>, s: set<string>): Must {
    if items == [] then Never
    else Meet(Names(s), EnterRaised(ever, items[1..], EnterOne(ever, items[0], s)))
  }

  /** Such an exception, when a context manager that has been entered may swallow it. */
  function EnterSwallowed(ever: bool, items: seq<WithItem>, s: set<string>, swallows: bool): Must {
    if items == [] then Never
    else
      Meet(if swallows then Names(s) else Never,
           EnterSwallowed(ever, items[1..], EnterOne(ever, items[0], s),
                          swallows || !IsBinderCall(items[0].context)))
  }

  predicate MaySwallow(items: seq<WithItem>) {
    items != [] && (!IsBinderCall(items[0].context) || MaySwallow(items[1..]))
  }

  function WithFlow(ever: bool, items: seq<WithItem>, s: set<string>, body: Flow): Flow {
    var raised := Meet(EnterRaised(ever, items, s), Ends(body));
    var swallowed := Meet(EnterSwallowed(ever, items, s, false), if MaySwallow(items) then body.raised else Never);
    body.(next := Meet(body.next, swallowed), raised := Meet(Names(s), raised))
  }

  // ----- statements

  function Follow(ever: bool, stmt: Stmt, s: set<string>): Flow
    decreases stmt, 1
  {
    match stmt
    case AnnOnly => Simple(s, s)
    case ExprStmt(_) => Simple(s, s)
    case Assign(targets, value) => Simple(s, BindTargets(s, targets, IsStagingExpr(value, s)))
    case Rebind(names, _) => Simple(s, s - names)
    case Return(_) => DEAD.(raised := Names(s), returned := Names(s))
    case Raise(_) => DEAD.(raised := Names(s))
    case Break => DEAD.(raised := Names(s), broke := Names(s))
    case Continue => DEAD.(raised := Names(s), continued := Names(s))
    case With(items, body) => WithFlow(ever, items, s, FollowB(ever, body, AfterEnter(ever, items, s)))
    case If(_, body, orelse) =>
      Both(DEAD.(raised := Names(s)), Both(FollowB(ever, body, s), FollowB(ever, orelse, s)))
    case For(target, _, body, orelse) =>
      var head := LoopNames(ever, BoundNames(target), body, s);
      LoopFlow(head, FollowB(ever, body, head - BoundNames(target)), FollowB(ever, orelse, head))
    case While(_, body, orelse) =>
      var head := LoopNames(ever, {}, body, s);
      LoopFlow(head, FollowB(ever, body, head), FollowB(ever, orelse, head))
    case Try(_, _, _, final) => Both(DEAD.(raised := Names(s)), FinalFlow(ever, final, Pending(ever, stmt, s)))
    case Def(name, _, _, _) => Simple(s, s - {name})
    case Class(name, _, body, _) =>
      Simple(s, s - {name}).(next := if FollowB(ever, body, s).next.Never? then Never else Names(s - {name}))
  }

  /** A `try` up to its `finally` block. */
  function Pending(ever: bool, stmt: Stmt, s: set<string>): Flow
    requires stmt.Try?
    decreases stmt, 0
  {
    var f := FollowB(ever, stmt.body, s);
    var h := if f.raised.Never? then DEAD else FollowH(ever, stmt.handlers, f.raised.s);
    Both(f.(next := Never), Both(h, FollowFrom(ever, stmt.orelse, f.next)))
  }

  function FollowB(ever: bool, block: seq<Stmt>, s: set<string>): Flow
    decreases block, 0
  {
    if block == [] then DEAD.(next := Names(s))
    else
      var f := Follow(ever, block[0], s);
      Both(f.(next := Never), if f.next.Never? then DEAD else FollowB(ever, block[1..], f.next.s))
  }

  function FollowFrom(ever: bool, block: seq<Stmt>, m: Must): Flow
    decreases block, 1
  {
    if m.Never? then DEAD else FollowB(ever, block, m.s)
  }

  /** Any one of the handlers. */
  function FollowH(ever: bool, handlers: seq<Handler>, s: set<string>): Flow
    decreases handlers, 0
  {
    if handlers == [] then DEAD else Both(FollowB(ever, handlers[0].body, s), FollowH(ever, handlers[1..], s))
  }

  /** A `finally` block after each outcome: it lets the outcome through or replaces it by its own. */
  function FinalFlow(ever: bool, final: seq<Stmt>, pending: Flow): Flow
    decreases final, 2
  {
    var a, b, c := FollowFrom(ever, final, pending.next), FollowFrom(ever, final, pending.raised),
                   FollowFrom(ever, final, pending.returned);
    var d, e := FollowFrom(ever, final, pending.broke), FollowFrom(ever, final, pending.continued);
    Both(Flow(a.next, b.next, c.next, d.next, e.next),
         Both(Both(a, b), Both(c, Both(d, e))).(next := Never))
  }

  /** The names that are private at the head of a loop in every round: the largest set of entry names that the body,
      run to its end or to a `continue`, keeps.  `targets` get new values in every round. */
  function LoopNames(ever: bool, targets: set<string>, body: seq<Stmt>, s: set<string>): (r: set<string>)
    ensures r <= s
    decreases body, 1, |s|
  {
    var kept := Kept(s, FollowB(ever, body, s - targets));
    if kept == s then s
    else
      Shrinks(s, kept);
      LoopNames(ever, targets, body, kept)
  }

  function Kept(s: set<string>, f: Flow): set<string> {
    Cut(Cut(s, f.next), f.continued)
  }

  lemma {:induction false} Shrinks(s: set<string>, t: set<string>)
    requires t <= s && t != s
    ensures |t| < |s|
  {
    var x :| x in s && x !in t;
    assert t <= s - {x};
    Smaller(t, s - {x});
  }

  lemma {:induction false} Smaller(t: set<string>, s: set<string>)
    requires t <= s
    ensures |t| <= |s|
    decreases |t|
  {
    if x :| x in t {
      Smaller(t - {x}, s - {x});
    }
  }

  /** The names at the head of a loop are kept by every round. */
  lemma {:induction false} LoopFixed(ever: bool, targets: set<string>, body: seq<Stmt>, s: set<string>)
    ensures var head := LoopNames(ever, targets, body, s);
      Kept(head, FollowB(ever, body, head - targets)) == head
    decreases |s|
  {
    var kept := Kept(s, FollowB(ever, body, s - targets));
    if kept != s {
      Shrinks(s, kept);
      LoopFixed(ever, targets, body, kept);
    }
  }

  /** A loop whose head, body and `else` branch have these flows. */
  function LoopFlow(head: set<string>, f: Flow, g: Flow): Flow {
    Flow(Meet(g.next, f.broke), Meet(Names(head), Meet(f.raised, g.raised)), Meet(f.returned, g.returned), g.broke,
         g.continued)
  }

  // ----- what may be truncated

  /** An expression that need not evaluate to a path. */
  predicate MayBeOther(e: Expr, s: set<string>) {
    match e
    case Name(id) => id !in s
    case Str(_) => false
    case Const => true
    case Attribute(obj, attr) => attr == "name" ==> MayBeOther(obj, s)
    case Div(left, right) => right.Str? ==> MayBeOther(left, s)
    case Call(func, args, _, _) =>
      CalleeName(func) !in STAGING_BINDERS
      && (CalleeName(func) == "Path" && args != [] && (forall k | 1 <= k < |args| :: args[k].Str?) ==>
            MayBeOther(args[0], s))
    case Compound(_) => true
  }

  /** What a call may truncate is staged. */
  predicate QuietCall(call: Expr, s: set<string>)
    requires call.Call?
  {
    var func := call.func;
    if func.Attribute? && func.attr in TRUNCATING_METHODS then IsStagingExpr(func.obj, s)
    else if func.Attribute? && func.attr == "open" && !QualifiedOpen(func) then
      && (IsTruncatingMode(ArgOr(call.args, 0, call.keywords, "mode")) ==> IsStagingExpr(func.obj, s))
      && (MayBeOther(func.obj, s) ==> QuietOpen(call, s, FILE_KEYWORDS))
    else CalleeName(func) in {"open", "fdopen"} ==> QuietOpen(call, s, {"file"})
  }

  function OpenTarget(call: Expr, names: set<string>): seq<Expr>
    requires call.Call?
  {
    if call.args != [] then [call.args[0]] else NamedArg(call.keywords, names)
  }

  predicate QuietOpen(call: Expr, s: set<string>, names: set<string>)
    requires call.Call?
  {
    IsTruncatingMode(ArgOr(call.args, 1, call.keywords, "mode")) && OpenTarget(call, names) != [] ==>
      IsStagingExpr(OpenTarget(call, names)[0], s)
  }

  predicate QuietExpr(e: Expr, s: set<string>) {
    match e
    case Attribute(obj, _) => QuietExpr(obj, s)
    case Div(left, right) => QuietExpr(left, s) && QuietExpr(right, s)
    case Call(func, args, keywords, _) =>
      QuietCall(e, s) && QuietExpr(func, s) && QuietExprs(args, s) && QuietKeywords(keywords, s)
    case Compound(parts) => QuietExprs(parts, s)
    case _ => true
  }

  predicate QuietExprs(es: seq<Expr>, s: set<string>) {
    es == [] || (QuietExpr(es[0], s) && QuietExprs(es[1..], s))
  }

  predicate QuietKeywords(ks: seq<Keyword>, s: set<string>) {
    ks == [] || (QuietExpr(ks[0].value, s) && QuietKeywords(ks[1..], s))
  }

  predicate QuietItems(items: seq<WithItem>, s: set<string>) {
    items == []
    || (QuietExpr(items[0].context, s) && QuietItems(items[1..], EnterOne(true, items[0], s)))
  }

  /** Nothing that the statement may truncate, however it is run, is anything but staged. */
  predicate Quiet(ever: bool, stmt: Stmt, s: set<string>)
    decreases stmt, 0
  {
    match stmt
    case AnnOnly => true
    case Break => true
    case Continue => true
    case ExprStmt(e) => QuietExpr(e, s)
    case Return(e) => QuietExpr(e, s)
    case Raise(e) => QuietExpr(e, s)
    case Assign(_, value) => QuietExpr(value, s)
    case Rebind(_, exprs) => QuietExprs(exprs, s)
    case With(items, body) => QuietItems(items, s) && QuietB(ever, body, AfterEnter(true, items, s))
    case If(test, body, orelse) => QuietExpr(test, s) && QuietB(ever, body, s) && QuietB(ever, orelse, s)
    case For(target, iter, body, orelse) =>
      var head := LoopNames(ever, BoundNames(target), body, s);
      QuietExpr(iter, s) && QuietB(ever, body, head - BoundNames(target)) && QuietB(ever, orelse, head)
    case While(test, body, orelse) =>
      var head := LoopNames(ever, {}, body, s);
      QuietExpr(test, head) && QuietB(ever, body, head) && QuietB(ever, orelse, head)
    case Try(body, handlers, orelse, final) =>
      var f := FollowB(ever, body, s);
      && QuietB(ever, body, s) && (f.raised.Names? ==> QuietH(ever, handlers, f.raised.s))
      && QuietFrom(ever, orelse, f.next) && QuietFinal(ever, final, Pending(ever, stmt, s))
    case Def(_, defaults, body, decorators) =>
      QuietExprs(decorators, s) && QuietExprs(defaults, s) && QuietB(ever, body, {})
    case Class(_, bases, body, decorators) =>
      QuietExprs(decorators, s) && QuietExprs(bases, s) && QuietB(ever, body, s)
  }

  predicate QuietB(ever: bool, block: seq<Stmt>, s: set<string>)
    decreases block, 0
  {
    block == []
    || (Quiet(ever, block[0], s) && QuietFrom(ever, block[1..], Follow(ever, block[0], s).next))
  }

  predicate QuietFrom(ever: bool, block: seq<Stmt>, m: Must)
    decreases block, 1
  {
    m.Names? ==> QuietB(ever, block, m.s)
  }

  predicate QuietH(ever: bool, handlers: seq<Handler>, s: set<string>)
    decreases handlers, 0
  {
    handlers == [] || (QuietB(ever, handlers[0].body, s) && QuietH(ever, handlers[1..], s))
  }

  predicate QuietFinal(ever: bool, final: seq<Stmt>, pending: Flow)
    decreases final, 2
  {
    && QuietFrom(ever, final, pending.next) && QuietFrom(ever, final, pending.raised)
    && QuietFrom(ever, final, pending.returned) && QuietFrom(ever, final, pending.broke)
    && QuietFrom(ever, final, pending.continued)
  }
}
