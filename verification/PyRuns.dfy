/** What a run of a scanned program can do to files.  An oracle resolves every choice that the text leaves open:
    branches, loop counts, raised exceptions, swallowed exceptions, results of unknown calls.  Its shape follows the
    run, one sub-oracle for each part, so a statement about all oracles is a statement about all runs. */
module PyRuns {
  import opened PurePaths
  import opened PyAst
  import opened WriteScanner

  /** A string, path or handle stands for the place it names; a module, a class or a number is `Other`. */
  datatype Value = Place(path: Path) | Other

  datatype Choice = Choice(raises: bool, branch: bool, count: nat, value: Value, root: Path,
                           pick: string -> Value, env: map<string, Value>)

  datatype Oracle = Oracle(now: Choice, next: seq<Oracle>)

  function Sub(o: Oracle, k: nat): Oracle {
    if k < |o.next| then o.next[k] else Oracle(o.now, [])
  }

  datatype Outcome = Running | Raised | Returned | Broke | Continued

  /** `made` are the private staging places that have ever been made, `ended` those that are gone.  `published`
      collects the truncated paths that were outside all existing places at the time of the write, `stray` those
      outside all places ever made. */
  datatype State = State(env: map<string, Value>, made: set<Path>, ended: set<Path>, published: set<Path>,
                         stray: set<Path>, out: Outcome)

  ghost predicate InRoots(path: Path, roots: set<Path>) {
    exists root | root in roots :: Under(root, path)
  }

  ghost predicate Private(v: Value, roots: set<Path>) {
    v.Place? && InRoots(v.path, roots)
  }

  /** Nothing recorded is forgotten, and only places made in between can end in between. */
  ghost predicate Later(st: State, st': State) {
    && st.made <= st'.made && st.ended <= st'.ended && (forall p | p in st'.ended && p in st.made :: p in st.ended)
    && st.published <= st'.published && st.stray <= st'.stray
  }

  // ----- expressions

  /** A step at which the run may raise an exception. */
  ghost function Tick(st: State, o: Oracle): State {
    st.(out := if st.out.Running? && o.now.raises then Raised else st.out)
  }

  const FILE_KEYWORDS: set<string> := {"file", "filename", "name"}

  /** The value of the first keyword with one of the names, as a sequence of at most one. */
  function NamedArg(ks: seq<Keyword>, names: set<string>): seq<Expr> {
    if ks == [] then [] else if ks[0].arg in names then [ks[0].value] else NamedArg(ks[1..], names)
  }

  function NamedValue(ks: seq<Keyword>, values: seq<Value>, names: set<string>): Value
    requires |values| == |ks|
  {
    if ks == [] then Other else if ks[0].arg in names then values[0] else NamedValue(ks[1..], values[1..], names)
  }

  /** The place that a call truncates, by Python's meaning of the call; `Other` when it truncates none.  What `.open`
      means depends on the receiver: a path opens itself in the mode of the first argument, while a module or a
      class, such as `tarfile`, `gzip`, `codecs` or `Path`, opens the first argument in the mode of the second.
      `io` and `builtins` are taken for the modules. */
  function Truncated(call: Expr, obj: Value, args: seq<Value>, named: seq<Value>): Value
    requires call.Call? && |args| == |call.args| && |named| == |call.keywords|
  {
    var func := call.func;
    if func.Attribute? && func.attr in {"write_text", "write_bytes"} then
      if obj.Place? then obj else if args != [] then args[0] else Other
    else if func.Attribute? && func.attr == "open" && !QualifiedOpen(func) then
      if obj.Place? then (if IsTruncatingMode(ArgOr(call.args, 0, call.keywords, "mode")) then obj else Other)
      else Opened(call, args, named, FILE_KEYWORDS)
    else if CalleeName(func) in {"open", "fdopen"} then Opened(call, args, named, {"file"})
    else Other
  }

  function Opened(call: Expr, args: seq<Value>, named: seq<Value>, names: set<string>): Value
    requires call.Call? && |args| == |call.args| && |named| == |call.keywords|
  {
    if !IsTruncatingMode(ArgOr(call.args, 1, call.keywords, "mode")) then Other
    else if args != [] then args[0] else NamedValue(call.keywords, named, names)
  }

  ghost function WriteTo(v: Value, st: State): State {
    if !st.out.Running? || !v.Place? then st
    else
      st.(published := st.published + if InRoots(v.path, st.made - st.ended) then {} else {v.path},
          stray := st.stray + if InRoots(v.path, st.made) then {} else {v.path})
  }

  /** `v / text`. */
  function JoinText(v: Value, text: string, unknown: Value): Value {
    if v.Place? then Place(Join(v.path, ParsePath(text))) else unknown
  }

  /** `Path(v, *parts)`: what a part other than a literal names is not in the text. */
  function JoinTexts(v: Value, parts: seq<Expr>, unknown: Value): Value
    decreases parts
  {
    if parts == [] then v
    else if parts[0].Str? then JoinTexts(JoinText(v, parts[0].value, unknown), parts[1..], unknown)
    else unknown
  }

  ghost function Eval(e: Expr, st: State, o: Oracle): (r: (Value, State))
    ensures Evaluated(st, r.1)
    ensures IsBinderCall(e) && r.1.out.Running? ==>
      r.0.Place? && r.0.path in r.1.made && r.0.path !in r.1.ended && r.0.path !in st.made
    decreases e, 1
  {
    match e
    case Name(id) => (if id in st.env then st.env[id] else o.now.value, st)
    case Str(text) => (Place(ParsePath(text)), st)
    case Const => (o.now.value, st)
    case Attribute(obj, attr) =>
      var (v, st1) := Eval(obj, st, Sub(o, 0));
      (if attr == "name" && v.Place? then v else o.now.value, Tick(st1, o))
    case Div(left, right) =>
      var (v, st1) := Eval(left, st, Sub(o, 0));
      var (_, st2) := Eval(right, st1, Sub(o, 1));
      (JoinTexts(v, [right], o.now.value), Tick(st2, o))
    case Call(_, _, _, _) => EvalCall(e, st, o)
    case Compound(parts) =>
      var (_, st1) := EvalAll(parts, st, Sub(o, 0));
      (o.now.value, Tick(st1, o))
  }

  function Receiver(call: Expr): Expr
    requires call.Call?
  {
    if call.func.Attribute? then call.func.obj else call.func
  }

  /** The parts in order, then the write, then a possible exception, then the result. */
  ghost function EvalCall(call: Expr, st: State, o: Oracle): (r: (Value, State))
    requires call.Call?
    ensures Evaluated(st, r.1)
    ensures IsBinderCall(call) && r.1.out.Running? ==>
      r.0.Place? && r.0.path in r.1.made && r.0.path !in r.1.ended && r.0.path !in st.made
    decreases call, 0
  {
    var (obj, st1) := Eval(Receiver(call), st, Sub(o, 0));
    var (args, st2) := EvalAll(call.args, st1, Sub(o, 1));
    var (named, st3) := EvalKeywords(call.keywords, st2, Sub(o, 2));
    Result(call, args, Tick(WriteTo(Truncated(call, obj, args, named), st3), o), o)
  }

  ghost function Result(call: Expr, args: seq<Value>, st: State, o: Oracle): (r: (Value, State))
    requires call.Call? && |args| == |call.args|
    ensures Evaluated(st, r.1)
  {
    if CalleeName(call.func) in STAGING_BINDERS then Allocate(st, o)
    else if CalleeName(call.func) == "Path" && args != [] then
      (JoinTexts(args[0], call.args[1..], o.now.value), st)
    else (o.now.value, st)
  }

  /** A binder makes a new private place; no place is made twice. */
  ghost function Allocate(st: State, o: Oracle): (Value, State) {
    var root := o.now.root;
    if !st.out.Running? then (Other, st)
    else if root in st.made || root in st.ended then (Other, st.(out := Raised))
    else (Place(root), st.(made := st.made + {root}))
  }

  ghost function EvalAll(es: seq<Expr>, st: State, o: Oracle): (r: (seq<Value>, State))
    ensures Evaluated(st, r.1) && |r.0| == |es|
    decreases es, 0
  {
    if es == [] then ([], st)
    else
      var (v, st1) := Eval(es[0], st, Sub(o, 0));
      var (vs, st2) := EvalAll(es[1..], st1, Sub(o, 1));
      ([v] + vs, st2)
  }

  ghost function EvalKeywords(ks: seq<Keyword>, st: State, o: Oracle): (r: (seq<Value>, State))
    ensures Evaluated(st, r.1) && |r.0| == |ks|
    decreases ks, 0
  {
    if ks == [] then ([], st)
    else
      var (v, st1) := Eval(ks[0].value, st, Sub(o, 0));
      var (vs, st2) := EvalKeywords(ks[1..], st1, Sub(o, 1));
      ([v] + vs, st2)
  }

  /** Expressions bind no name and end no private place; they can only raise. */
  ghost predicate Evaluated(st: State, st': State) {
    && st'.env == st.env && Later(st, st')
    && (st'.out == st.out || (st.out.Running? && st'.out.Raised?))
  }

  // ----- statements

  /** A tuple target takes the private place of its value apart, or any values at all. */
  ghost function BindTo(target: Target, v: Value, st: State, pick: string -> Value): State {
    st.(env := st.env + map x | x in BoundNames(target) ::
                  if target.NameTarget? || Private(v, st.made) then v else pick(x))
  }

  ghost function BindAll(targets: seq<Target>, v: Value, st: State, o: Oracle): (r: State)
    ensures r == st.(env := r.env)
    decreases targets
  {
    if targets == [] then st
    else BindAll(targets[1..], v, BindTo(targets[0], v, st, o.now.pick), Sub(o, 0))
  }

  ghost function BindAny(names: set<string>, st: State, o: Oracle): State {
    st.(env := st.env + map x | x in names :: o.now.pick(x))
  }

  /** The state after entering the items of a `with`, the private places that its exit takes away, and whether it may
      swallow an exception: whether a context manager has been entered that is no staging binder. */
  datatype Entered = Entered(st: State, places: set<Path>, swallows: bool)

  ghost function Enter(items: seq<WithItem>, st: State, o: Oracle): (r: Entered)
    ensures Later(st, r.st) && r.places <= r.st.made && r.places !! st.made
    ensures r.st.out == st.out || (st.out.Running? && r.st.out.Raised?)
  {
    if items == [] || !st.out.Running? then Entered(st, {}, false)
    else
      var (v, st0) := Eval(items[0].context, st, Sub(o, 0));
      var st1 := Tick(st0, o);
      if !st1.out.Running? then Entered(st1, {}, false)
      else
        var binder := IsBinderCall(items[0].context);
        var w := if binder then v else o.now.value;
        var rest := Enter(items[1..], BindTo(items[0].target, w, st1, o.now.pick), Sub(o, 1));
        Entered(rest.st, rest.places + (if binder then {v.path} else {}), rest.swallows || !binder)
  }

  /** Leaving a `with`: its places end, an exception of the body may be swallowed, and a new one may be raised. */
  ghost function Leave(entered: Entered, st: State, o: Oracle): State {
    st.(ended := st.ended + entered.places,
        out := if o.now.raises then Raised
               else if st.out.Raised? && entered.swallows && o.now.branch then Running else st.out)
  }

  ghost function Exec(stmt: Stmt, start: State, o: Oracle): (r: State)
    ensures Later(start, r)
    decreases stmt
  {
    var st := Tick(start, o);
    if !st.out.Running? then st
    else match stmt
      case AnnOnly => st
      case Break => st.(out := Broke)
      case Continue => st.(out := Continued)
      case ExprStmt(e) => Eval(e, st, Sub(o, 0)).1
      case Return(e) => Then(Eval(e, st, Sub(o, 0)).1, Returned)
      case Raise(e) => Then(Eval(e, st, Sub(o, 0)).1, Raised)
      case Rebind(names, exprs) =>
        var st1 := EvalAll(exprs, st, Sub(o, 0)).1;
        if st1.out.Running? then BindAny(names, st1, o) else st1
      case Assign(targets, value) =>
        var (v, st1) := Eval(value, st, Sub(o, 0));
        if st1.out.Running? then BindAll(targets, v, st1, Sub(o, 1)) else st1
      case With(items, body) =>
        var entered := Enter(items, st, Sub(o, 0));
        Leave(entered, ExecB(body, entered.st, Sub(o, 1)), Sub(o, 2))
      case If(test, body, orelse) =>
        ExecB(if o.now.branch then body else orelse, Eval(test, st, Sub(o, 0)).1, Sub(o, 1))
      case For(target, iter, body, orelse) =>
        var st1 := ExecLoop(BoundNames(target), [], body, o.now.count, Eval(iter, st, Sub(o, 0)).1, Sub(o, 1));
        AfterLoop(orelse, st1, Sub(o, 2))
      case While(test, body, orelse) =>
        AfterLoop(orelse, ExecLoop({}, [test], body, o.now.count, st, Sub(o, 1)), Sub(o, 2))
      case Try(body, handlers, orelse, final) =>
        var st2 := ExecTry(stmt, st, o);
        Finally(st2, ExecB(final, st2.(out := Running), Sub(o, 2)))
      case Def(_, _, _, _) => ExecDef(stmt, st, o)
      case Class(_, _, _, _) => ExecClass(stmt, st, o)
  }

  /** A `finally` block that ends normally lets the outcome before it through. */
  ghost function Finally(before: State, after: State): State {
    if after.out.Running? then after.(out := before.out) else after
  }

  ghost function ExecDef(stmt: Stmt, st: State, o: Oracle): (r: State)
    requires stmt.Def?
    ensures Later(st, r)
    decreases stmt, 0
  {
    var st1 := EvalAll(stmt.decorators, st, Sub(o, 0)).1;
    var st2 := EvalAll(stmt.defaults, st1, Sub(o, 1)).1;
    if !st2.out.Running? then st2
    else BindAny({stmt.name}, RunBody(stmt.body, o.now.count, st2, Sub(o, 2)), o)
  }

  /** A class body runs once and on the spot; the names it binds do not leak. */
  ghost function ExecClass(stmt: Stmt, st: State, o: Oracle): (r: State)
    requires stmt.Class?
    ensures Later(st, r)
    decreases stmt, 0
  {
    var st1 := EvalAll(stmt.decorators, st, Sub(o, 0)).1;
    var st2 := EvalAll(stmt.bases, st1, Sub(o, 1)).1;
    var st3 := ExecB(stmt.body, st2, Sub(o, 2));
    if !st3.out.Running? then st3.(env := st2.env, out := Raised)
    else BindAny({stmt.name}, st3.(env := st2.env), o)
  }

  ghost function Then(st: State, out: Outcome): State {
    if st.out.Running? then st.(out := out) else st
  }

  /** A `try` up to its `finally` block: one of the handlers may take an exception of the body. */
  ghost function ExecTry(stmt: Stmt, st: State, o: Oracle): (r: State)
    requires stmt.Try?
    ensures Later(st, r)
    decreases stmt, 0
  {
    var st1 := ExecB(stmt.body, st, Sub(o, 0));
    if st1.out.Raised? && stmt.handlers != [] && o.now.branch then
      ExecB(stmt.handlers[o.now.count % |stmt.handlers|].body, st1.(out := Running), Sub(o, 1))
    else ExecB(stmt.orelse, st1, Sub(o, 1))
  }

  ghost function ExecB(block: seq<Stmt>, st: State, o: Oracle): (r: State)
    ensures Later(st, r)
    ensures !st.out.Running? ==> r == st
    decreases block, 0
  {
    if block == [] || !st.out.Running? then st
    else ExecB(block[1..], Exec(block[0], st, Sub(o, 0)), Sub(o, 1))
  }

  /** `count` rounds unless left early: the tests, new values for the target names, the body. */
  ghost function ExecLoop(names: set<string>, tests: seq<Expr>, body: seq<Stmt>, count: nat, start: State,
                          o: Oracle): (r: State)
    ensures Later(start, r)
    decreases body, 1, count
  {
    var st := Tick(EvalAll(tests, start, Sub(o, 0)).1, o);
    if !start.out.Running? then start
    else if count == 0 || !st.out.Running? then st
    else
      var st1 := ExecB(body, BindAny(names, st, o), Sub(o, 1));
      if st1.out.Running? || st1.out.Continued?
      then ExecLoop(names, tests, body, count - 1, st1.(out := Running), Sub(o, 2)) else st1
  }

  /** The `else` branch of a loop, which `break` skips. */
  ghost function AfterLoop(orelse: seq<Stmt>, st: State, o: Oracle): (r: State)
    ensures Later(st, r)
    decreases orelse, 1
  {
    if st.out.Broke? then st.(out := Running) else ExecB(orelse, st, o)
  }

  /** Later calls of a function: any number, each with any values for all names. */
  ghost function RunBody(body: seq<Stmt>, count: nat, st: State, o: Oracle): (r: State)
    ensures Later(st, r) && r.env == st.env && r.out == st.out
    decreases body, 1, count
  {
    if count == 0 then st
    else
      var st1 := ExecB(body, st.(env := o.now.env, out := Running), Sub(o, 0));
      RunBody(body, count - 1, st1.(env := st.env, out := st.out), Sub(o, 1))
  }

  const START := State(map[], {}, {}, {}, {}, Running)

  /** A module runs from no names and no private places. */
  ghost function Run(program: seq<Stmt>, o: Oracle): State {
    ExecB(program, START, o)
  }
}
