/** When the scanner reads a single call right: the exact condition for what the call itself truncates. */
module CallExactness {
  import opened PurePaths
  import opened PyAst
  import opened WriteScanner
  import opened PyRuns
  import opened StagingFlow
  import opened FlowSoundness
  import opened PyLiterals
  import opened RunWitness
  import opened ExprWitness
  import opened ScannerExact
  import opened ScannerSoundness
  import opened ScannerGaps

  /** The place that a call truncates when its parts have been evaluated, and the state in which it does so. */
  ghost function Write(call: Expr, st: State, o: Oracle): (Value, State)
    requires call.Call?
  {
    var (obj, st1) := Eval(Receiver(call), st, Sub(o, 0));
    var (args, st2) := EvalAll(call.args, st1, Sub(o, 1));
    var (named, st3) := EvalKeywords(call.keywords, st2, Sub(o, 2));
    (Truncated(call, obj, args, named), st3)
  }

  ghost predicate WritesOutside(ever: bool, call: Expr, st: State, o: Oracle)
    requires call.Call?
  {
    var (v, st1) := Write(call, st, o);
    st1.out.Running? && Lost(v, Counted(ever, st1, {}))
  }

  /** From every state in which the staged names are private the call itself truncates nothing else. */
  ghost predicate CallSafe(ever: bool, call: Expr, staged: set<string>)
    requires call.Call?
  {
    forall st: State, o: Oracle | st.out.Running? && Consistent(ever, st, staged, {}) ::
      !WritesOutside(ever, call, st, o)
  }

  // ----- values that are no paths

  function Elsewhere(o: Oracle): Oracle {
    Oracle(o.now.(value := Other), o.next)
  }

  lemma {:induction false} JoinsOther(v: Value, parts: seq<Expr>)
    requires v.Other? || exists k :: 0 <= k < |parts| && !parts[k].Str?
    ensures JoinTexts(v, parts, Other).Other?
    decreases parts
  {
    if parts != [] && parts[0].Str? {
      var w := JoinText(v, parts[0].value, Other);
      if !v.Other? {
        var k :| 0 <= k < |parts| && !parts[k].Str?;
        assert parts[1..][k - 1] == parts[k];
      }
      JoinsOther(w, parts[1..]);
    }
  }

  /** An expression that need not evaluate to a path does not do so in some run from a state in which no other names
      than the staged ones are bound. */
  lemma {:induction false} EvalOther(e: Expr, s: set<string>, st: State, n: nat) returns (o: Oracle)
    requires Ready(st, n) && Fair(e, n) && MayBeOther(e, s) && st.env.Keys == s
    ensures Good(Eval(e, st, o), st, n) && Eval(e, st, o).0.Other?
    decreases e, 1
  {
    match e {
      case Name(_) => o := Elsewhere(QUIET);
      case Const => o := Elsewhere(QUIET);
      case Attribute(obj, attr) =>
        var a;
        if attr == "name" { a := EvalOther(obj, s, st, n); } else { a := EvalRuns(obj, st, n); }
        o := Elsewhere(Node(OUT.path, [a]));
        assert Sub(o, 0) == a;
      case Div(left, right) =>
        var a;
        if right.Str? { a := EvalOther(left, s, st, n); } else { a := EvalRuns(left, st, n); }
        var (v, st1) := Eval(left, st, a);
        var b := EvalRuns(right, st1, n);
        o := Elsewhere(Node(OUT.path, [a, b]));
        assert Sub(o, 0) == a && Sub(o, 1) == b;
        if !right.Str? { assert ![right][0].Str?; }
        JoinsOther(v, [right]);
      case Call(_, _, _, _) => o := CallOther(e, s, st, n);
      case Compound(parts) =>
        var a := AllRun(parts, st, n);
        o := Elsewhere(Node(OUT.path, [a]));
        assert Sub(o, 0) == a;
    }
  }

  lemma {:induction false} FirstOther(es: seq<Expr>, s: set<string>, st: State, n: nat) returns (o: Oracle)
    requires es != [] && Ready(st, n) && FairAll(es, n) && MayBeOther(es[0], s) && st.env.Keys == s
    ensures GoodAll(EvalAll(es, st, o), st, n) && EvalAll(es, st, o).0[0].Other?
    decreases es, 0
  {
    var a := EvalOther(es[0], s, st, n);
    var b := AllRun(es[1..], Eval(es[0], st, a).1, n);
    o := Node(OUT.path, [a, b]);
  }

  lemma {:induction false} CallOther(call: Expr, s: set<string>, st: State, n: nat) returns (o: Oracle)
    requires call.Call? && Ready(st, n) && Fair(call, n) && MayBeOther(call, s) && st.env.Keys == s
    ensures Good(EvalCall(call, st, o), st, n) && EvalCall(call, st, o).0.Other?
    decreases call, 0
  {
    hide EvalCall, WriteTo, Truncated;
    var a := EvalRuns(Receiver(call), st, n);
    var st1 := Eval(Receiver(call), st, a).1;
    var b;
    var lit := forall k | 1 <= k < |call.args| :: call.args[k].Str?;
    if CalleeName(call.func) == "Path" && call.args != [] && lit {
      b := FirstOther(call.args, s, st1, n);
    } else {
      b := AllRun(call.args, st1, n);
    }
    var (args, st2) := EvalAll(call.args, st1, b);
    var c := KeywordsRun(call.keywords, st2, n);
    var o' := CallFrom(call, st, a, b, c, n);
    o := Elsewhere(o');
    ElsewhereCall(call, st, o');
    if CalleeName(call.func) == "Path" && call.args != [] {
      var rest := call.args[1..];
      if !lit {
        var k :| 1 <= k < |call.args| && !call.args[k].Str?;
        assert !rest[k - 1].Str?;
      }
      JoinsOther(args[0], rest);
    }
  }

  /** Choosing another value changes no more than the result of an unknown call. */
  lemma {:induction false} ElsewhereCall(call: Expr, st: State, o: Oracle)
    requires call.Call? && |o.next| == 3 && CalleeName(call.func) !in STAGING_BINDERS
    ensures EvalCall(call, st, Elsewhere(o)).1 == EvalCall(call, st, o).1
    ensures var st1 := Eval(Receiver(call), st, Sub(o, 0)).1;
      var args := EvalAll(call.args, st1, Sub(o, 1)).0;
      EvalCall(call, st, Elsewhere(o)).0 ==
        if CalleeName(call.func) == "Path" && args != [] then JoinTexts(args[0], call.args[1..], Other) else Other
  {
    hide Eval, EvalAll, EvalKeywords, Truncated, WriteTo, JoinTexts;
    var o' := Elsewhere(o);
    assert Sub(o', 0) == Sub(o, 0) && Sub(o', 1) == Sub(o, 1) && Sub(o', 2) == Sub(o, 2);
  }

  // ----- the exact condition

  lemma {:induction false} QuietSafe(ever: bool, call: Expr, staged: set<string>)
    requires call.Call? && QuietCall(call, staged)
    ensures CallSafe(ever, call, staged)
  {
    hide QuietCall, Truncated;
    forall st: State, o: Oracle | st.out.Running? && Consistent(ever, st, staged, {})
      ensures !WritesOutside(ever, call, st, o)
    {
      CallInside(ever, call, staged, st, o);
    }
  }

  lemma {:induction false} LoudWrites(ever: bool, call: Expr, staged: set<string>, st: State, n: nat)
      returns (o: Oracle)
    requires call.Call? && FairParts(call, n) && !QuietCall(call, staged) && Ready(st, n) && st.env.Keys == staged
    ensures WritesOutside(ever, call, st, o)
  {
    hide IsTruncatingMode, ArgOr, MayBeOther, LossSource, IsStagingExpr, NamedArg;
    var func := call.func;
    var opens := func.Attribute? && func.attr == "open" && !QualifiedOpen(func);
    if opens && MayBeOther(func.obj, staged) && !QuietOpen(call, staged, FILE_KEYWORDS) {
      TargetMissing(ever, call, FILE_KEYWORDS, staged, st);
      var a := EvalOther(func.obj, staged, st, n);
      o := TargetLeaks(ever, call, FILE_KEYWORDS, staged, st, a, n);
    } else if func.Attribute? && (func.attr in TRUNCATING_METHODS || opens) {
      SourceUnstaged(func.obj, staged);
      o := ReceiverLeaks(ever, call, staged, st, n);
    } else {
      TargetMissing(ever, call, {"file"}, staged, st);
      var a := EvalRuns(Receiver(call), st, n);
      o := TargetLeaks(ever, call, {"file"}, staged, st, a, n);
    }
  }

  lemma {:induction false} TargetMissing(ever: bool, call: Expr, names: set<string>, staged: set<string>, st: State)
    requires call.Call? && !QuietOpen(call, staged, names) && st.env.Keys == staged
    ensures Missing(ever, st, LossSource(OpenTarget(call, names)[0], staged), {})
  {
    SourceUnstaged(OpenTarget(call, names)[0], staged);
  }

  /** What a call truncates is private in all runs if and only if the reference takes it to be staged. */
  lemma {:induction false} CallExact(ever: bool, call: Expr, staged: set<string>, n: nat)
    requires call.Call? && FairParts(call, n)
    ensures CallSafe(ever, call, staged) <==> QuietCall(call, staged)
  {
    if QuietCall(call, staged) {
      QuietSafe(ever, call, staged);
    } else {
      var st := FittingState(ever, staged, n);
      var o := LoudWrites(ever, call, staged, st, n);
    }
  }

  /** The scanner's silence about a call is right if and only if the call is no `.open` that may open an unstaged file
      in place of its receiver. */
  lemma {:induction false} SilenceRight(ever: bool, call: Expr, staged: set<string>, n: nat)
    requires call.Call? && FairParts(call, n) && CallFindings(call, staged) == []
    ensures CallSafe(ever, call, staged) <==> ReadRight(call, staged)
  {
    CallExact(ever, call, staged, n);
    SilentCall(call, staged);
  }

  /** A call that is not read right is a program of its own that is silently unsafe. */
  lemma {:induction false} MisreadUnsafe(call: Expr, n: nat)
    requires call.Call? && FairParts(call, n) && ExprFindings(call, {}) == [] && !ReadRight(call, {})
    ensures SilentlyUnsafe([ExprStmt(call)])
  {
    hide Eval, EvalCall, CallFindings, ReadRight, QuietCall;
    SilentCall(call, {});
    One(ExprStmt(call), {}, n);
    var a := LoudWrites(false, call, {}, START, n);
    var (v, st) := Write(call, START, a);
    WriteOutside(false, v, st);
    WrittenLater(call, START, a);
    MarksLater(false, WriteTo(v, st), EvalCall(call, START, a).1);
    var b := Node(OUT.path, [a]);
    var o := Node(OUT.path, [b]);
    var program := [ExprStmt(call)];
    CallEvaluates(call, START, a);
    assert Sub(b, 0) == a && Sub(o, 0) == b && program[1..] == [];
    assert Exec(program[0], START, b) == Eval(call, START, a).1;
    assert ExecB(program, START, o) == ExecB([], Eval(call, START, a).1, Sub(o, 1));
    assert Run(program, o).published != {};
  }

  lemma {:induction false} CallEvaluates(call: Expr, st: State, o: Oracle)
    requires call.Call?
    ensures Eval(call, st, o) == EvalCall(call, st, o)
  {
  }

  lemma {:induction false} WrittenLater(call: Expr, st: State, o: Oracle)
    requires call.Call?
    ensures Later(WriteTo(Write(call, st, o).0, Write(call, st, o).1), EvalCall(call, st, o).1)
  {
    hide Eval, EvalAll, EvalKeywords, Truncated;
  }

  /** `tarfile.open(out, "w:gz")`, `gzip.open(out, "wb")` or `Path.open(out, "w")`: nothing is reported, and a
      published path is truncated. */
  lemma {:induction false} OpenUnsafe(m: string, out: string, mode: string, keywords: seq<Keyword>, line: nat, n: nat)
    requires m !in {"io", "builtins"} && 'w' in mode && |mode| < n
    requires FairKeywords(keywords, n) && KeywordFindings(keywords, {}) == []
    ensures SilentlyUnsafe([ExprStmt(Call(Attribute(Name(m), "open"), [Name(out), Str(mode)], keywords, line))])
  {
    var func, args := Attribute(Name(m), "open"), [Name(out), Str(mode)];
    var call := Call(func, args, keywords, line);
    TwoArgs(out, mode, n);
    assert CalleeName(func) == "open" && Fair(Name(m), n);
    assert ExprFindings(Name(m), {}) == [] && ExprFindings(func, {}) == [];
    assert CallFindings(call, {}) == [] && MayBeOther(func.obj, {}) && !QuietOpen(call, {}, FILE_KEYWORDS);
    MisreadUnsafe(call, n);
  }

  lemma {:induction false} TwoArgs(out: string, mode: string, n: nat)
    requires |mode| < n
    ensures ExprsFindings([Name(out), Str(mode)], {}) == [] && FairAll([Name(out), Str(mode)], n)
  {
    var args := [Name(out), Str(mode)];
    assert args[1..] == [Str(mode)] && args[1..][1..] == [];
    assert FairAll(args[1..][1..], n) && FairAll(args[1..], n);
    assert ExprsFindings(args[1..][1..], {}) == [] && ExprsFindings(args[1..], {}) == [];
    assert ExprFindings(Name(out), {}) == [] && ExprFindings(Str(mode), {}) == [];
  }

  // ----- why exactness for programs leaves such calls out

  /** An `.open` on a name that some earlier statement has made a path: no run truncates anything, but the reference,
      which does not follow which names hold paths, is not quiet. */
  lemma {:induction false} OpenUndecided(x: string, a: string, b: string, mode: string, line: nat)
    requires x !in {"io", "builtins"} && 'w' !in b && 'w' in mode
    ensures var call := Call(Attribute(Name(x), "open"), [Str(b), Str(mode)], [], line);
      var program := [Set(x, Str(a)), ExprStmt(call)];
      Safe(false, program) && !QuietB(false, program, {})
  {
    var call := Call(Attribute(Name(x), "open"), [Str(b), Str(mode)], [], line);
    var first, last := Set(x, Str(a)), ExprStmt(call);
    var program := [first, last];
    var none: set<string> := {};
    assert !QuietCall(call, none);
    hide QuietCall, Run;
    Publishes(x, a, none, |a| + 1);
    One(last, none, |a| + 1);
    assert none - {x} == none && program == [first] + [last];
    Cons(first, [last], none, none, |a| + 1);
    forall o ensures Marks(false, Run(program, o)) == {} { OpensRun(call, x, a, o); }
  }

  lemma {:induction false} OpensRun(call: Expr, x: string, a: string, o: Oracle)
    requires call.Call? && call.func == Attribute(Name(x), "open") && call.keywords == [] && x !in {"io", "builtins"}
    requires |call.args| == 2 && call.args[0].Str? && call.args[1].Str? && 'w' !in call.args[0].value
    ensures Run([Set(x, Str(a)), ExprStmt(call)], o).published == {}
  {
    var first, last := Set(x, Str(a)), ExprStmt(call);
    var program := [first, last];
    var st := Exec(first, START, Sub(o, 0));
    NamesPath(x, a, START, Sub(o, 0));
    assert program[1..] == [last] && [last][1..] == [];
    if st.out.Running? {
      OpensNothing(call, x, Tick(st, Sub(Sub(o, 1), 0)), Sub(Sub(Sub(o, 1), 0), 0));
      hide Eval;
      assert Run(program, o) == ExecB([last], st, Sub(o, 1));
    }
  }

  lemma {:induction false} NamesPath(x: string, a: string, st: State, o: Oracle)
    requires st.out.Running?
    ensures var r := Exec(Set(x, Str(a)), st, o);
      r.published == st.published && (r.out.Running? ==> x in r.env && r.env[x].Place?)
  {
    var targets, v, st1 := [NameTarget(x)], Place(ParsePath(a)), Tick(st, o);
    assert targets[1..] == [] && x in BoundNames(targets[0]);
    if st1.out.Running? {
      assert Eval(Str(a), st1, Sub(o, 0)) == (v, st1);
      var bound := BindTo(targets[0], v, st1, Sub(o, 1).now.pick);
      assert BindAll(targets, v, st1, Sub(o, 1)) == BindAll([], v, bound, Sub(Sub(o, 1), 0));
      assert bound.env[x] == v;
    }
  }

  lemma {:induction false} OpensNothing(call: Expr, x: string, st: State, o: Oracle)
    requires call.Call? && call.func == Attribute(Name(x), "open") && call.keywords == []
    requires |call.args| == 2 && call.args[0].Str? && call.args[1].Str? && 'w' !in call.args[0].value
    requires x !in {"io", "builtins"} && x in st.env && st.env[x].Place?
    ensures Eval(call, st, o).1.published == st.published
  {
    assert Receiver(call) == Name(x);
    StrsKeep(call.args, st, Sub(o, 1));
    var (args, st1) := EvalAll(call.args, st, Sub(o, 1));
    assert Eval(Name(x), st, Sub(o, 0)) == (st.env[x], st);
    hide Eval, EvalAll;
    assert Truncated(call, st.env[x], args, []) == Other;
    CallEvaluates(call, st, o);
    WritesNothing(call, args, st, o);
  }

  lemma {:induction false} StrsKeep(es: seq<Expr>, st: State, o: Oracle)
    requires forall k | 0 <= k < |es| :: es[k].Str?
    ensures EvalAll(es, st, o).1 == st
    decreases es
  {
    if es != [] {
      assert Eval(es[0], st, Sub(o, 0)) == (Place(ParsePath(es[0].value)), st);
      StrsKeep(es[1..], st, Sub(o, 1));
    }
  }

  lemma {:induction false} WritesNothing(call: Expr, args: seq<Value>, st: State, o: Oracle)
    requires call.Call? && call.keywords == [] && |args| == |call.args|
    requires EvalAll(call.args, Eval(Receiver(call), st, Sub(o, 0)).1, Sub(o, 1)) == (args, st)
    requires Truncated(call, Eval(Receiver(call), st, Sub(o, 0)).0, args, []) == Other
    ensures EvalCall(call, st, o).1.published == st.published
  {
    hide Eval, EvalAll, Truncated;
  }
}
