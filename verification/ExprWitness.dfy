/** For every expression that the reference does not take for staged there is a run in which its value lies outside the
    private places, and for every expression that is not quiet one in which it truncates a path outside. */
module ExprWitness {
  import opened Common
  import opened PurePaths
  import opened PyAst
  import opened WriteScanner
  import opened PyRuns
  import opened StagingFlow
  import opened FlowSoundness
  import opened PyLiterals
  import opened RunWitness

  function Node(root: Path, next: seq<Oracle>): (o: Oracle)
    ensures o.now == Calm(root) && forall k | 0 <= k < |next| :: Sub(o, k) == next[k]
  {
    Oracle(Calm(root), next)
  }

  lemma {:induction false} FreshRoot(st: State, n: nat) returns (root: Path)
    ensures IsRoot(root, n) && root !in st.made
  {
    var name := LongName(st.made, n);
    root := Path(true, [name]);
  }

  /** More has been made, nothing else has happened to what the names hold. */
  lemma {:induction false} ReadyLater(st: State, st': State, n: nat)
    requires Ready(st, n) && Later(st, st') && st'.env == st.env && st'.out.Running? && st'.ended <= st'.made
    requires forall p | p in st'.made :: IsRoot(p, n)
    ensures Ready(st', n)
  {
  }

  // ----- evaluating without an exception

  /** A value, and the state after it, of a run that is being built. */
  ghost predicate Good(r: (Value, State), st: State, n: nat) {
    Ready(r.1, n) && Later(st, r.1) && r.1.env == st.env && Tame(r.0, r.1.made, n)
  }

  ghost predicate GoodAll(r: (seq<Value>, State), st: State, n: nat) {
    Ready(r.1, n) && Later(st, r.1) && r.1.env == st.env && forall k | 0 <= k < |r.0| :: Tame(r.0[k], r.1.made, n)
  }

  lemma {:induction false} EvalRuns(e: Expr, st: State, n: nat) returns (o: Oracle)
    requires Ready(st, n) && Fair(e, n)
    ensures Good(Eval(e, st, o), st, n)
    decreases e, 1
  {
    match e {
      case Name(_) => o := QUIET;
      case Str(text) =>
        LiteralShort(text, n);
        o := QUIET;
      case Const => o := QUIET;
      case Attribute(obj, _) =>
        var a := EvalRuns(obj, st, n);
        o := Node(OUT.path, [a]);
      case Div(left, right) =>
        var a := EvalRuns(left, st, n);
        var (v, st1) := Eval(left, st, a);
        var b := EvalRuns(right, st1, n);
        o := Node(OUT.path, [a, b]);
        DivValue(e, st, o, n);
      case Call(_, _, _, _) => o := CallRuns(e, st, n);
      case Compound(parts) =>
        var a := AllRun(parts, st, n);
        o := Node(OUT.path, [a]);
    }
  }

  lemma {:induction false} DivValue(e: Expr, st: State, o: Oracle, n: nat)
    requires e.Div? && Fair(e, n) && o.now.value == OUT
    requires Good(Eval(e.left, st, Sub(o, 0)), st, n)
    requires Later(Eval(e.left, st, Sub(o, 0)).1, Eval(e, st, o).1)
    ensures Tame(Eval(e, st, o).0, Eval(e, st, o).1.made, n)
  {
    var (v, st1) := Eval(e.left, st, Sub(o, 0));
    TameLater(v, st1.made, Eval(e, st, o).1.made, n);
    JoinsTame(v, [e.right], Eval(e, st, o).1.made, n);
  }

  lemma {:induction false} AllRun(es: seq<Expr>, st: State, n: nat) returns (o: Oracle)
    requires Ready(st, n) && FairAll(es, n)
    ensures GoodAll(EvalAll(es, st, o), st, n)
    decreases es, 0
  {
    if es == [] {
      o := QUIET;
    } else {
      var a := EvalRuns(es[0], st, n);
      var b := AllRun(es[1..], Eval(es[0], st, a).1, n);
      o := Node(OUT.path, [a, b]);
    }
  }

  lemma {:induction false} KeywordsRun(ks: seq<Keyword>, st: State, n: nat) returns (o: Oracle)
    requires Ready(st, n) && FairKeywords(ks, n)
    ensures GoodAll(EvalKeywords(ks, st, o), st, n)
    decreases ks, 0
  {
    if ks == [] {
      o := QUIET;
    } else {
      var a := EvalRuns(ks[0].value, st, n);
      var b := KeywordsRun(ks[1..], Eval(ks[0].value, st, a).1, n);
      o := Node(OUT.path, [a, b]);
    }
  }

  /** The result of a call whose parts have been evaluated. */
  lemma {:induction false} ResultRuns(call: Expr, args: seq<Value>, st: State, root: Path, n: nat, o: Oracle)
    requires call.Call? && |args| == |call.args| && Fair(call, n) && Ready(st, n)
    requires IsRoot(root, n) && root !in st.made && o.now == Calm(root)
    requires forall k | 0 <= k < |args| :: Tame(args[k], st.made, n)
    ensures Good(Result(call, args, st, o), st, n)
  {
    var r := Result(call, args, st, o);
    if CalleeName(call.func) in STAGING_BINDERS {
      assert root == Path(true, [root.parts[0]]);
      ReadyLater(st, r.1, n);
    } else if CalleeName(call.func) == "Path" && args != [] {
      FairTexts(call.args, n);
      JoinsTame(args[0], call.args[1..], st.made, n);
    }
  }

  lemma {:induction false} FairTexts(es: seq<Expr>, n: nat)
    requires FairAll(es, n)
    ensures forall k | 0 <= k < |es| :: Fair(es[k], n)
    ensures ShortTexts(es, n) && (es != [] ==> ShortTexts(es[1..], n))
  {
    if es != [] {
      FairTexts(es[1..], n);
      assert forall k | 0 < k < |es| :: es[k] == es[1..][k - 1];
    }
  }

  /** The state in which a call writes, and the oracle of the call, from those of its parts. */
  lemma {:induction false} CallFrom(call: Expr, st: State, a: Oracle, b: Oracle, c: Oracle, n: nat)
      returns (o: Oracle)
    requires call.Call? && Fair(call, n) && Ready(st, n)
    requires Good(Eval(Receiver(call), st, a), st, n)
    requires GoodAll(EvalAll(call.args, Eval(Receiver(call), st, a).1, b), Eval(Receiver(call), st, a).1, n)
    requires var st2 := EvalAll(call.args, Eval(Receiver(call), st, a).1, b).1;
      GoodAll(EvalKeywords(call.keywords, st2, c), st2, n)
    ensures Sub(o, 0) == a && Sub(o, 1) == b && Sub(o, 2) == c && o.now.value == OUT && |o.next| == 3
    ensures Good(EvalCall(call, st, o), st, n)
  {
    var (obj, st1) := Eval(Receiver(call), st, a);
    var (args, st2) := EvalAll(call.args, st1, b);
    var (named, st3) := EvalKeywords(call.keywords, st2, c);
    var st4 := WriteTo(Truncated(call, obj, args, named), st3);
    assert Ready(st4, n);
    var root := FreshRoot(st4, n);
    o := Node(root, [a, b, c]);
    assert Tick(st4, o) == st4;
    forall k | 0 <= k < |args| ensures Tame(args[k], st4.made, n) { TameLater(args[k], st2.made, st4.made, n); }
    ResultRuns(call, args, st4, root, n, o);
  }

  lemma {:induction false} CallRuns(call: Expr, st: State, n: nat) returns (o: Oracle)
    requires call.Call? && Ready(st, n) && Fair(call, n)
    ensures Good(EvalCall(call, st, o), st, n)
    decreases call, 0
  {
    var a := EvalRuns(Receiver(call), st, n);
    var st1 := Eval(Receiver(call), st, a).1;
    var b := AllRun(call.args, st1, n);
    var st2 := EvalAll(call.args, st1, b).1;
    var c := KeywordsRun(call.keywords, st2, n);
    o := CallFrom(call, st, a, b, c, n);
  }

  // ----- values outside

  /** The name, if any, that has to lie outside for the value of an unstaged expression to do so. */
  function LossSource(e: Expr, s: set<string>): Option<string> {
    match e
    case Name(id) => Some(id)
    case Attribute(obj, attr) => if attr == "name" then LossSource(obj, s) else None
    case Div(left, right) => if right.Str? && !IsStagingExpr(left, s) then LossSource(left, s) else None
    case Call(func, args, _, _) =>
      if CalleeName(func) == "Path" && args != [] && !IsStagingExpr(args[0], s)
         && forall k | 1 <= k < |args| :: args[k].Str?
      then LossSource(args[0], s) else None
    case _ => None
  }

  lemma {:induction false} SourceUnstaged(e: Expr, s: set<string>)
    requires !IsStagingExpr(e, s)
    ensures LossSource(e, s).Some? ==> LossSource(e, s).value !in s
    decreases e
  {
    match e {
      case Attribute(obj, attr) => if attr == "name" { SourceUnstaged(obj, s); }
      case Div(left, right) => if right.Str? && !IsStagingExpr(left, s) { SourceUnstaged(left, s); }
      case Call(func, args, _, _) =>
        if CalleeName(func) == "Path" && args != [] && !IsStagingExpr(args[0], s) { SourceUnstaged(args[0], s); }
      case _ =>
    }
  }

  ghost predicate GoodLost(ever: bool, r: (Value, State), st: State, gone: set<Path>, n: nat) {
    Good(r, st, n) && Lost(r.0, Counted(ever, r.1, gone))
  }

  lemma {:induction false} CountedRoots(ever: bool, st: State, gone: set<Path>, n: nat)
    requires forall p | p in st.made :: IsRoot(p, n)
    ensures forall p | p in Counted(ever, st, gone) :: IsRoot(p, n)
  {
  }

  lemma {:induction false} LiteralLost(text: string, places: set<Path>, n: nat)
    requires |text| < n && forall p | p in places :: IsRoot(p, n)
    ensures Lost(Place(ParsePath(text)), places)
  {
    LiteralShort(text, n);
    forall root | root in places ensures !Under(root, ParsePath(text)) { UnderRoot(root, ParsePath(text), n); }
  }

  lemma {:induction false} EvalLoses(ever: bool, e: Expr, s: set<string>, st: State, gone: set<Path>, n: nat)
      returns (o: Oracle)
    requires Ready(st, n) && Fair(e, n) && !IsStagingExpr(e, s) && Missing(ever, st, LossSource(e, s), gone)
    ensures GoodLost(ever, Eval(e, st, o), st, gone, n)
    decreases e, 1
  {
    CountedRoots(ever, st, gone, n);
    OutLost(Counted(ever, st, gone), st.made, n);
    match e {
      case Name(_) => o := QUIET;
      case Str(text) =>
        LiteralShort(text, n);
        LiteralLost(text, Counted(ever, st, gone), n);
        o := QUIET;
      case Const => o := QUIET;
      case Attribute(obj, attr) =>
        if attr == "name" {
          var a := EvalLoses(ever, obj, s, st, gone, n);
          o := Node(OUT.path, [a]);
        } else {
          var a := EvalRuns(obj, st, n);
          o := Node(OUT.path, [a]);
          CountedRoots(ever, Eval(e, st, o).1, gone, n);
          OutLost(Counted(ever, Eval(e, st, o).1, gone), st.made, n);
        }
      case Div(_, _) => o := DivLoses(ever, e, s, st, gone, n);
      case Call(_, _, _, _) => o := CallLoses(ever, e, s, st, gone, n);
      case Compound(parts) =>
        var a := AllRun(parts, st, n);
        o := Node(OUT.path, [a]);
        CountedRoots(ever, Eval(e, st, o).1, gone, n);
        OutLost(Counted(ever, Eval(e, st, o).1, gone), st.made, n);
    }
  }

  lemma {:induction false} DivLoses(ever: bool, e: Expr, s: set<string>, st: State, gone: set<Path>, n: nat)
      returns (o: Oracle)
    requires e.Div? && Ready(st, n) && Fair(e, n) && !IsStagingExpr(e, s)
    requires Missing(ever, st, LossSource(e, s), gone)
    ensures GoodLost(ever, Eval(e, st, o), st, gone, n)
    decreases e, 0
  {
    var a;
    if e.right.Str? && !IsStagingExpr(e.left, s) {
      a := EvalLoses(ever, e.left, s, st, gone, n);
    } else {
      a := EvalRuns(e.left, st, n);
    }
    var (v, st1) := Eval(e.left, st, a);
    var b := EvalRuns(e.right, st1, n);
    o := Node(OUT.path, [a, b]);
    var (w, st2) := Eval(e, st, o);
    DivValue(e, st, o, n);
    CountedRoots(ever, st2, gone, n);
    if e.right.Str? {
      assert ShortTexts([e.right], n);
      if IsStagingExpr(e.left, s) { assert !IsRelativeLiteral([e.right][0]); }
      JoinsLost(v, [e.right], Counted(ever, st2, gone), n);
    } else {
      OutLost(Counted(ever, st2, gone), st2.made, n);
    }
  }

  /** The arguments of a call, with the first one outside. */
  lemma {:induction false} FirstLoses(ever: bool, es: seq<Expr>, s: set<string>, st: State, gone: set<Path>, n: nat)
      returns (o: Oracle)
    requires es != [] && Ready(st, n) && FairAll(es, n) && !IsStagingExpr(es[0], s)
    requires Missing(ever, st, LossSource(es[0], s), gone)
    ensures GoodAll(EvalAll(es, st, o), st, n)
    ensures Lost(EvalAll(es, st, o).0[0], Counted(ever, EvalAll(es, st, o).1, gone))
    decreases es, 0
  {
    var a := EvalLoses(ever, es[0], s, st, gone, n);
    var (v, st1) := Eval(es[0], st, a);
    var b := AllRun(es[1..], st1, n);
    o := Node(OUT.path, [a, b]);
    LostLater(ever, v, st1, EvalAll(es, st, o).1, gone, gone, n);
  }

  lemma {:induction false} CallLoses(ever: bool, call: Expr, s: set<string>, st: State, gone: set<Path>, n: nat)
      returns (o: Oracle)
    requires call.Call? && Ready(st, n) && Fair(call, n) && !IsStagingExpr(call, s)
    requires Missing(ever, st, LossSource(call, s), gone)
    ensures GoodLost(ever, Eval(call, st, o), st, gone, n)
    decreases call, 0
  {
    var a := EvalRuns(Receiver(call), st, n);
    var st1 := Eval(Receiver(call), st, a).1;
    var b;
    if LossSource(call, s).Some? {
      MissingLater(ever, LossSource(call, s), st, st1, gone, gone, n);
    }
    if CalleeName(call.func) == "Path" && call.args != [] && !IsStagingExpr(call.args[0], s)
       && forall k | 1 <= k < |call.args| :: call.args[k].Str? {
      b := FirstLoses(ever, call.args, s, st1, gone, n);
    } else {
      b := AllRun(call.args, st1, n);
    }
    var (args, st2) := EvalAll(call.args, st1, b);
    var c := KeywordsRun(call.keywords, st2, n);
    o := CallFrom(call, st, a, b, c, n);
    LostResult(ever, call, s, st, o, gone, n);
  }

  lemma {:induction false} LostResult(ever: bool, call: Expr, s: set<string>, st: State, o: Oracle, gone: set<Path>,
                                      n: nat)
    requires call.Call? && Fair(call, n) && !IsStagingExpr(call, s) && o.now.value == OUT
    requires Good(Eval(call, st, o), st, n)
    requires var st1 := Eval(Receiver(call), st, Sub(o, 0)).1;
      && GoodAll(EvalAll(call.args, st1, Sub(o, 1)), st1, n)
      && (CalleeName(call.func) == "Path" && call.args != [] && !IsStagingExpr(call.args[0], s)
          && (forall k | 1 <= k < |call.args| :: call.args[k].Str?) ==>
            Lost(EvalAll(call.args, st1, Sub(o, 1)).0[0], Counted(ever, EvalAll(call.args, st1, Sub(o, 1)).1, gone)))
    ensures Lost(Eval(call, st, o).0, Counted(ever, Eval(call, st, o).1, gone))
  {
    var st1 := Eval(Receiver(call), st, Sub(o, 0)).1;
    var (args, st2) := EvalAll(call.args, st1, Sub(o, 1));
    var (v, end) := Eval(call, st, o);
    CountedRoots(ever, end, gone, n);
    OutLost(Counted(ever, end, gone), end.made, n);
    if CalleeName(call.func) == "Path" && call.args != [] {
      var rest := call.args[1..];
      FairTexts(call.args, n);
      if forall k | 1 <= k < |call.args| :: call.args[k].Str? {
        if !IsStagingExpr(call.args[0], s) {
          LostLater(ever, args[0], st2, end, gone, gone, n);
        } else {
          var k :| 1 <= k < |call.args| && !IsRelativeLiteral(call.args[k]);
          assert rest[k - 1] == call.args[k];
        }
        JoinsLost(args[0], rest, Counted(ever, end, gone), n);
      } else {
        var k :| 1 <= k < |call.args| && !call.args[k].Str?;
        assert rest[k - 1] == call.args[k];
        JoinsLost(args[0], rest, Counted(ever, end, gone), n);
      }
    }
  }

  // ----- writes outside

  /** The name, if any, that has to lie outside for a call that is not quiet to truncate a path outside. */
  function CallSource(call: Expr, s: set<string>): Option<string>
    requires call.Call?
  {
    if call.func.Attribute? && (call.func.attr in TRUNCATING_METHODS
                                || (call.func.attr == "open" && !QualifiedOpen(call.func)))
    then LossSource(call.func.obj, s)
    else
      var target := OpenTarget(call, {"file"});
      if target == [] then None else LossSource(target[0], s)
  }

  function LeakSource(e: Expr, s: set<string>): Option<string> {
    match e
    case Attribute(obj, _) => LeakSource(obj, s)
    case Div(left, right) => if QuietExpr(left, s) then LeakSource(right, s) else LeakSource(left, s)
    case Call(func, args, keywords, _) =>
      if !QuietCall(e, s) then CallSource(e, s)
      else if !QuietExpr(func, s) then LeakSource(func, s)
      else if !QuietExprs(args, s) then LeakSourceAll(args, s)
      else LeakSourceKeywords(keywords, s)
    case Compound(parts) => LeakSourceAll(parts, s)
    case _ => None
  }

  function LeakSourceAll(es: seq<Expr>, s: set<string>): Option<string> {
    if es == [] then None
    else if QuietExpr(es[0], s) then LeakSourceAll(es[1..], s) else LeakSource(es[0], s)
  }

  function LeakSourceKeywords(ks: seq<Keyword>, s: set<string>): Option<string> {
    if ks == [] then None
    else if QuietExpr(ks[0].value, s) then LeakSourceKeywords(ks[1..], s) else LeakSource(ks[0].value, s)
  }

  predicate Unstaged(x: Option<string>, s: set<string>) {
    x.Some? ==> x.value !in s
  }

  lemma {:induction false} CallSourceUnstaged(call: Expr, s: set<string>, n: nat)
    requires call.Call? && PlainOpen(call) && !QuietCall(call, s)
    ensures Unstaged(CallSource(call, s), s)
  {
    hide IsTruncatingMode, ArgOr, MayBeOther;
    if call.func.Attribute? && !IsStagingExpr(call.func.obj, s) { SourceUnstaged(call.func.obj, s); }
    var target := OpenTarget(call, {"file"});
    if target != [] && !IsStagingExpr(target[0], s) { SourceUnstaged(target[0], s); }
  }

  lemma {:induction false} LeakUnstaged(e: Expr, s: set<string>, n: nat)
    requires Fair(e, n) && !QuietExpr(e, s)
    ensures Unstaged(LeakSource(e, s), s)
    decreases e
  {
    match e {
      case Attribute(obj, _) => LeakUnstaged(obj, s, n);
      case Div(left, right) => if QuietExpr(left, s) { LeakUnstaged(right, s, n); } else { LeakUnstaged(left, s, n); }
      case Call(func, args, keywords, _) =>
        if !QuietCall(e, s) {
          CallSourceUnstaged(e, s, n);
        } else if !QuietExpr(func, s) {
          LeakUnstaged(func, s, n);
        } else if !QuietExprs(args, s) {
          LeakUnstagedAll(args, s, n);
        } else {
          LeakUnstagedKeywords(keywords, s, n);
        }
      case Compound(parts) => LeakUnstagedAll(parts, s, n);
    }
  }

  lemma {:induction false} LeakUnstagedAll(es: seq<Expr>, s: set<string>, n: nat)
    requires FairAll(es, n) && !QuietExprs(es, s)
    ensures Unstaged(LeakSourceAll(es, s), s)
    decreases es
  {
    if QuietExpr(es[0], s) { LeakUnstagedAll(es[1..], s, n); } else { LeakUnstaged(es[0], s, n); }
  }

  lemma {:induction false} LeakUnstagedKeywords(ks: seq<Keyword>, s: set<string>, n: nat)
    requires FairKeywords(ks, n) && !QuietKeywords(ks, s)
    ensures Unstaged(LeakSourceKeywords(ks, s), s)
    decreases ks
  {
    if QuietExpr(ks[0].value, s) { LeakUnstagedKeywords(ks[1..], s, n); } else { LeakUnstaged(ks[0].value, s, n); }
  }

  /** A write to a path outside leaves a mark. */
  lemma {:induction false} WriteOutside(ever: bool, v: Value, st: State)
    requires st.out.Running? && Lost(v, Counted(ever, st, {}))
    ensures Marks(ever, WriteTo(v, st)) != {}
  {
    assert st.made - st.ended - {} == st.made - st.ended;
    assert v.path in Marks(ever, WriteTo(v, st));
  }

  lemma {:induction false} MarksLater(ever: bool, st: State, st': State)
    requires Later(st, st') && Marks(ever, st) != {}
    ensures Marks(ever, st') != {}
  {
    var p :| p in Marks(ever, st);
    assert p in Marks(ever, st');
  }

  /** The keyword values of a call, with the first one of the given names outside. */
  lemma {:induction false} NamedLoses(ever: bool, ks: seq<Keyword>, names: set<string>, s: set<string>, st: State,
                                      n: nat) returns (o: Oracle)
    requires Ready(st, n) && FairKeywords(ks, n) && NamedArg(ks, names) != []
    requires !IsStagingExpr(NamedArg(ks, names)[0], s) && Missing(ever, st, LossSource(NamedArg(ks, names)[0], s), {})
    ensures GoodAll(EvalKeywords(ks, st, o), st, n)
    ensures Lost(NamedValue(ks, EvalKeywords(ks, st, o).0, names), Counted(ever, EvalKeywords(ks, st, o).1, {}))
    decreases ks
  {
    if ks[0].arg in names {
      var a := EvalLoses(ever, ks[0].value, s, st, {}, n);
      var (v, st1) := Eval(ks[0].value, st, a);
      var b := KeywordsRun(ks[1..], st1, n);
      o := Node(OUT.path, [a, b]);
      LostLater(ever, v, st1, EvalKeywords(ks, st, o).1, {}, {}, n);
    } else {
      var a := EvalRuns(ks[0].value, st, n);
      var st1 := Eval(ks[0].value, st, a).1;
      MissingLater(ever, LossSource(NamedArg(ks, names)[0], s), st, st1, {}, {}, n);
      var b := NamedLoses(ever, ks[1..], names, s, st1, n);
      o := Node(OUT.path, [a, b]);
    }
  }

  /** A call whose receiver is outside. */
  lemma {:induction false} ReceiverLeaks(ever: bool, call: Expr, s: set<string>, st: State, n: nat)
      returns (o: Oracle)
    requires call.Call? && Ready(st, n) && FairParts(call, n)
    requires call.func.Attribute? && !IsStagingExpr(call.func.obj, s)
    requires Missing(ever, st, LossSource(call.func.obj, s), {})
    ensures var (obj, st1) := Eval(Receiver(call), st, Sub(o, 0));
      var (args, st2) := EvalAll(call.args, st1, Sub(o, 1));
      var (named, st3) := EvalKeywords(call.keywords, st2, Sub(o, 2));
      st3.out.Running? && Lost(obj, Counted(ever, st3, {}))
  {
    var a := EvalLoses(ever, call.func.obj, s, st, {}, n);
    var (obj, st1) := Eval(Receiver(call), st, a);
    var b := AllRun(call.args, st1, n);
    var st2 := EvalAll(call.args, st1, b).1;
    var c := KeywordsRun(call.keywords, st2, n);
    o := Node(OUT.path, [a, b, c]);
    var st3 := EvalKeywords(call.keywords, st2, c).1;
    LostLater(ever, obj, st1, st3, {}, {}, n);
  }

  /** A call whose target, its first argument or a keyword, is outside; `a` evaluates its receiver. */
  lemma {:induction false} TargetLeaks(ever: bool, call: Expr, names: set<string>, s: set<string>, st: State, a: Oracle,
                                       n: nat) returns (o: Oracle)
    requires call.Call? && Ready(st, n) && FairAll(call.args, n) && FairKeywords(call.keywords, n)
    requires Good(Eval(Receiver(call), st, a), st, n)
    requires OpenTarget(call, names) != [] && !IsStagingExpr(OpenTarget(call, names)[0], s)
    requires Missing(ever, st, LossSource(OpenTarget(call, names)[0], s), {})
    ensures Sub(o, 0) == a
    ensures var (obj, st1) := Eval(Receiver(call), st, Sub(o, 0));
      var (args, st2) := EvalAll(call.args, st1, Sub(o, 1));
      var (named, st3) := EvalKeywords(call.keywords, st2, Sub(o, 2));
      && st3.out.Running?
      && Lost(if args != [] then args[0] else NamedValue(call.keywords, named, names), Counted(ever, st3, {}))
  {
    var x := LossSource(OpenTarget(call, names)[0], s);
    var st1 := Eval(Receiver(call), st, a).1;
    MissingLater(ever, x, st, st1, {}, {}, n);
    if call.args != [] {
      var b := FirstLoses(ever, call.args, s, st1, {}, n);
      var (args, st2) := EvalAll(call.args, st1, b);
      var c := KeywordsRun(call.keywords, st2, n);
      o := Node(OUT.path, [a, b, c]);
      LostLater(ever, args[0], st2, EvalKeywords(call.keywords, st2, c).1, {}, {}, n);
    } else {
      var b := AllRun(call.args, st1, n);
      var st2 := EvalAll(call.args, st1, b).1;
      MissingLater(ever, x, st1, st2, {}, {}, n);
      var c := NamedLoses(ever, call.keywords, names, s, st2, n);
      o := Node(OUT.path, [a, b, c]);
    }
  }

  lemma {:induction false} CallLeaks(ever: bool, call: Expr, s: set<string>, st: State, n: nat) returns (o: Oracle)
    requires call.Call? && Ready(st, n) && Fair(call, n) && !QuietCall(call, s)
    requires Missing(ever, st, CallSource(call, s), {})
    ensures Marks(ever, EvalCall(call, st, o).1) != {}
  {
    hide IsTruncatingMode, ArgOr, MayBeOther, LossSource, IsStagingExpr, NamedArg;
    if call.func.Attribute? && (call.func.attr in TRUNCATING_METHODS
                                || (call.func.attr == "open" && !QualifiedOpen(call.func))) {
      o := ReceiverLeaks(ever, call, s, st, n);
    } else {
      var a := EvalRuns(Receiver(call), st, n);
      o := TargetLeaks(ever, call, {"file"}, s, st, a, n);
    }
    var (obj, st1) := Eval(Receiver(call), st, Sub(o, 0));
    var (args, st2) := EvalAll(call.args, st1, Sub(o, 1));
    var (named, st3) := EvalKeywords(call.keywords, st2, Sub(o, 2));
    var v := Truncated(call, obj, args, named);
    WriteOutside(ever, v, st3);
    MarksLater(ever, WriteTo(v, st3), EvalCall(call, st, o).1);
  }

  /** An expression that is not quiet truncates a path outside in some run. */
  lemma {:induction false} ExprLeaks(ever: bool, e: Expr, s: set<string>, st: State, n: nat) returns (o: Oracle)
    requires Ready(st, n) && Fair(e, n) && !QuietExpr(e, s) && Missing(ever, st, LeakSource(e, s), {})
    ensures Marks(ever, Eval(e, st, o).1) != {}
    decreases e, 1
  {
    match e {
      case Attribute(obj, _) =>
        var a := ExprLeaks(ever, obj, s, st, n);
        o := Node(OUT.path, [a]);
      case Div(left, right) =>
        if QuietExpr(left, s) {
          var a := EvalRuns(left, st, n);
          var st1 := Eval(left, st, a).1;
          MissingLater(ever, LeakSource(e, s), st, st1, {}, {}, n);
          var b := ExprLeaks(ever, right, s, st1, n);
          o := Node(OUT.path, [a, b]);
        } else {
          var a := ExprLeaks(ever, left, s, st, n);
          o := Node(OUT.path, [a]);
          MarksLater(ever, Eval(left, st, a).1, Eval(e, st, o).1);
        }
      case Call(_, _, _, _) =>
        if !QuietCall(e, s) { o := CallLeaks(ever, e, s, st, n); } else { o := PartLeaks(ever, e, s, st, n); }
      case Compound(parts) =>
        var a := ExprsLeak(ever, parts, s, st, n);
        o := Node(OUT.path, [a]);
    }
  }

  lemma {:induction false} CallLater(call: Expr, st: State, o: Oracle)
    requires call.Call?
    ensures var st1 := Eval(Receiver(call), st, Sub(o, 0)).1;
      var st2 := EvalAll(call.args, st1, Sub(o, 1)).1;
      var st3 := EvalKeywords(call.keywords, st2, Sub(o, 2)).1;
      var end := Eval(call, st, o).1;
      Later(st1, end) && Later(st2, end) && Later(st3, end)
  {
    var (obj, st1) := Eval(Receiver(call), st, Sub(o, 0));
    var (args, st2) := EvalAll(call.args, st1, Sub(o, 1));
    var (named, st3) := EvalKeywords(call.keywords, st2, Sub(o, 2));
    var end := Eval(call, st, o).1;
    assert Eval(call, st, o) == EvalCall(call, st, o);
    assert end == Result(call, args, Tick(WriteTo(Truncated(call, obj, args, named), st3), o), o).1;
    assert Later(st3, end);
  }

  lemma {:induction false} PartLeaks(ever: bool, call: Expr, s: set<string>, st: State, n: nat) returns (o: Oracle)
    requires call.Call? && Ready(st, n) && Fair(call, n) && QuietCall(call, s) && !QuietExpr(call, s)
    requires Missing(ever, st, LeakSource(call, s), {})
    ensures Marks(ever, Eval(call, st, o).1) != {}
    decreases call, 0
  {
    hide QuietCall, Truncated, EvalCall;
    if !QuietExpr(call.func, s) {
      var a := ExprLeaks(ever, Receiver(call), s, st, n);
      o := Node(OUT.path, [a]);
      CallLater(call, st, o);
      MarksLater(ever, Eval(Receiver(call), st, a).1, Eval(call, st, o).1);
    } else {
      var a := EvalRuns(Receiver(call), st, n);
      var st1 := Eval(Receiver(call), st, a).1;
      MissingLater(ever, LeakSource(call, s), st, st1, {}, {}, n);
      if !QuietExprs(call.args, s) {
        var b := ExprsLeak(ever, call.args, s, st1, n);
        o := Node(OUT.path, [a, b]);
        CallLater(call, st, o);
        MarksLater(ever, EvalAll(call.args, st1, b).1, Eval(call, st, o).1);
      } else {
        var b := AllRun(call.args, st1, n);
        var st2 := EvalAll(call.args, st1, b).1;
        MissingLater(ever, LeakSource(call, s), st1, st2, {}, {}, n);
        var c := KeywordsLeak(ever, call.keywords, s, st2, n);
        o := Node(OUT.path, [a, b, c]);
        CallLater(call, st, o);
        MarksLater(ever, EvalKeywords(call.keywords, st2, c).1, Eval(call, st, o).1);
      }
    }
  }

  lemma {:induction false} ExprsLeak(ever: bool, es: seq<Expr>, s: set<string>, st: State, n: nat) returns (o: Oracle)
    requires Ready(st, n) && FairAll(es, n) && !QuietExprs(es, s) && Missing(ever, st, LeakSourceAll(es, s), {})
    ensures Marks(ever, EvalAll(es, st, o).1) != {}
    decreases es, 0
  {
    if QuietExpr(es[0], s) {
      var a := EvalRuns(es[0], st, n);
      var st1 := Eval(es[0], st, a).1;
      MissingLater(ever, LeakSourceAll(es, s), st, st1, {}, {}, n);
      var b := ExprsLeak(ever, es[1..], s, st1, n);
      o := Node(OUT.path, [a, b]);
    } else {
      var a := ExprLeaks(ever, es[0], s, st, n);
      o := Node(OUT.path, [a]);
      MarksLater(ever, Eval(es[0], st, a).1, EvalAll(es, st, o).1);
    }
  }

  lemma {:induction false} KeywordsLeak(ever: bool, ks: seq<Keyword>, s: set<string>, st: State, n: nat)
      returns (o: Oracle)
    requires Ready(st, n) && FairKeywords(ks, n) && !QuietKeywords(ks, s)
    requires Missing(ever, st, LeakSourceKeywords(ks, s), {})
    ensures Marks(ever, EvalKeywords(ks, st, o).1) != {}
    decreases ks, 0
  {
    if QuietExpr(ks[0].value, s) {
      var a := EvalRuns(ks[0].value, st, n);
      var st1 := Eval(ks[0].value, st, a).1;
      MissingLater(ever, LeakSourceKeywords(ks, s), st, st1, {}, {}, n);
      var b := KeywordsLeak(ever, ks[1..], s, st1, n);
      o := Node(OUT.path, [a, b]);
    } else {
      var a := ExprLeaks(ever, ks[0].value, s, st, n);
      o := Node(OUT.path, [a]);
      MarksLater(ever, Eval(ks[0].value, st, a).1, EvalKeywords(ks, st, o).1);
    }
  }
}
