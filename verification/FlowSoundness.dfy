/** The reference is sound: at the end of every run of a statement the names that it says are private are, and a run
    of a quiet statement truncates nothing outside the private places. */
module FlowSoundness {
  import opened PurePaths
  import opened PyAst
  import opened WriteScanner
  import opened PyRuns
  import opened StagingFlow

  /** The places that count: all that have been made, or those that have not ended and are not in `gone`, the places
      that an enclosing `with` is going to end. */
  function Counted(ever: bool, st: State, gone: set<Path>): set<Path> {
    if ever then st.made else st.made - st.ended - gone
  }

  ghost predicate Consistent(ever: bool, st: State, s: set<string>, gone: set<Path>) {
    forall x | x in s :: x in st.env && Private(st.env[x], Counted(ever, st, gone))
  }

  /** What a run has truncated outside of the places that count. */
  function Marks(ever: bool, st: State): set<Path> {
    if ever then st.stray else st.published
  }

  ghost predicate Fits(ever: bool, st: State, f: Flow, gone: set<Path>) {
    At(f, st.out).Names? && Consistent(ever, st, At(f, st.out).s, gone)
  }

  lemma {:induction false} PrivateLater(ever: bool, v: Value, st: State, st': State, gone: set<Path>)
    requires Private(v, Counted(ever, st, gone)) && Later(st, st')
    ensures Private(v, Counted(ever, st', gone))
  {
    var root :| root in Counted(ever, st, gone) && Under(root, v.path);
    assert root in Counted(ever, st', gone);
  }

  lemma {:induction false} ConsistentLater(ever: bool, st: State, st': State, s: set<string>, gone: set<Path>)
    requires Consistent(ever, st, s, gone) && Later(st, st') && st'.env == st.env
    ensures Consistent(ever, st', s, gone)
  {
    forall x | x in s ensures x in st'.env && Private(st'.env[x], Counted(ever, st', gone)) {
      PrivateLater(ever, st.env[x], st, st', gone);
    }
  }

  lemma {:induction false} FitsLeft(ever: bool, st: State, f: Flow, g: Flow, gone: set<Path>)
    requires Fits(ever, st, f, gone)
    ensures Fits(ever, st, Both(f, g), gone)
  {
  }

  lemma {:induction false} FitsRight(ever: bool, st: State, f: Flow, g: Flow, gone: set<Path>)
    requires Fits(ever, st, g, gone)
    ensures Fits(ever, st, Both(f, g), gone)
  {
  }

  // ----- expressions

  lemma {:induction false} UnderJoin(root: Path, path: Path, text: string)
    requires Under(root, path)
    requires !ParsePath(text).abs && DOTDOT !in ParsePath(text).parts
    ensures Under(root, Join(path, ParsePath(text)))
  {
    var more := ParsePath(text).parts;
    assert (path.parts + more)[|root.parts|..] == path.parts[|root.parts|..] + more;
  }

  lemma {:induction false} PrivateJoin(v: Value, lits: seq<Expr>, roots: set<Path>, unknown: Value)
    requires Private(v, roots) && forall k | 0 <= k < |lits| :: IsRelativeLiteral(lits[k])
    ensures Private(JoinTexts(v, lits, unknown), roots)
    decreases lits
  {
    if lits != [] {
      var root :| root in roots && Under(root, v.path);
      UnderJoin(root, v.path, lits[0].value);
      PrivateJoin(JoinText(v, lits[0].value, unknown), lits[1..], roots, unknown);
    }
  }

  /** What the scanner takes for a staging expression evaluates to a private place. */
  lemma {:induction false} StagingValue(ever: bool, e: Expr, s: set<string>, st: State, o: Oracle, gone: set<Path>)
    requires Consistent(ever, st, s, gone) && gone <= st.made && IsStagingExpr(e, s)
    ensures var (v, st') := Eval(e, st, o); st'.out.Running? ==> Private(v, Counted(ever, st', gone))
    decreases e
  {
    var st' := Eval(e, st, o).1;
    if st'.out.Running? {
      match e {
        case Name(id) =>
        case Attribute(obj, _) => StagingValue(ever, obj, s, st, Sub(o, 0), gone);
        case Div(left, right) =>
          StagingValue(ever, left, s, st, Sub(o, 0), gone);
          var (v, st1) := Eval(left, st, Sub(o, 0));
          PrivateLater(ever, v, st1, st', gone);
          PrivateJoin(v, [right], Counted(ever, st', gone), o.now.value);
        case Call(func, args, keywords, _) =>
          if IsBinderCall(e) {
            var root := Eval(e, st, o).0.path;
            assert root in Counted(ever, st', gone) && Under(root, root);
          } else {
            FirstPart(ever, e, s, st, o, gone);
          }
      }
    }
  }

  lemma {:induction false} FirstPart(ever: bool, e: Expr, s: set<string>, st: State, o: Oracle, gone: set<Path>)
    requires Consistent(ever, st, s, gone) && gone <= st.made && IsStagingExpr(e, s) && e.Call? && !IsBinderCall(e)
    requires Eval(e, st, o).1.out.Running?
    ensures var (v, st') := Eval(e, st, o); Private(v, Counted(ever, st', gone))
    decreases e, 0
  {
    var st' := Eval(e, st, o).1;
    var st1 := Eval(Receiver(e), st, Sub(o, 0)).1;
    ConsistentLater(ever, st, st1, s, gone);
    StagingValue(ever, e.args[0], s, st1, Sub(Sub(o, 1), 0), gone);
    var (v, st2) := Eval(e.args[0], st1, Sub(Sub(o, 1), 0));
    assert EvalAll(e.args, st1, Sub(o, 1)).0[0] == v;
    PrivateLater(ever, v, st2, st', gone);
    PrivateJoin(v, e.args[1..], Counted(ever, st', gone), o.now.value);
  }

  lemma {:induction false} JoinsPlace(v: Value, parts: seq<Expr>, unknown: Value)
    requires v.Place? && forall k | 0 <= k < |parts| :: parts[k].Str?
    ensures JoinTexts(v, parts, unknown).Place?
    decreases parts
  {
    if parts != [] {
      JoinsPlace(JoinText(v, parts[0].value, unknown), parts[1..], unknown);
    }
  }

  /** An expression that cannot be anything else evaluates to a path. */
  lemma {:induction false} PathValue(ever: bool, e: Expr, s: set<string>, st: State, o: Oracle)
    requires Consistent(ever, st, s, {}) && !MayBeOther(e, s)
    ensures var (v, st') := Eval(e, st, o); st'.out.Running? ==> v.Place?
    decreases e
  {
    if Eval(e, st, o).1.out.Running? {
      match e {
        case Name(_) =>
        case Str(_) =>
        case Attribute(obj, _) => PathValue(ever, obj, s, st, Sub(o, 0));
        case Div(left, right) =>
          PathValue(ever, left, s, st, Sub(o, 0));
          JoinsPlace(Eval(left, st, Sub(o, 0)).0, [right], o.now.value);
        case Call(func, args, _, _) =>
          if !IsBinderCall(e) {
            var st1 := Eval(Receiver(e), st, Sub(o, 0)).1;
            ConsistentLater(ever, st, st1, s, {});
            PathValue(ever, args[0], s, st1, Sub(Sub(o, 1), 0));
            JoinsPlace(EvalAll(args, st1, Sub(o, 1)).0[0], args[1..], o.now.value);
          }
      }
    }
  }

  /** A write to a private place leaves no mark. */
  lemma {:induction false} WriteInside(ever: bool, v: Value, st: State)
    requires st.out.Running? && v.Place? ==> Private(v, Counted(ever, st, {}))
    ensures Marks(ever, WriteTo(v, st)) == Marks(ever, st)
  {
    assert st.made - st.ended - {} == st.made - st.ended;
  }

  /** A staging argument has a private value until the call is made. */
  lemma {:induction false} StagingArg(ever: bool, e: Expr, s: set<string>, st: State, o: Oracle, st': State)
    requires Consistent(ever, st, s, {}) && IsStagingExpr(e, s) && Later(Eval(e, st, o).1, st')
    ensures Eval(e, st, o).1.out.Running? ==> Private(Eval(e, st, o).0, Counted(ever, st', {}))
  {
    StagingValue(ever, e, s, st, o, {});
    var (v, st1) := Eval(e, st, o);
    if st1.out.Running? { PrivateLater(ever, v, st1, st', {}); }
  }

  /** What the keywords of a call give for the first one with a given name. */
  lemma {:induction false} StagingNamed(ever: bool, ks: seq<Keyword>, names: set<string>, s: set<string>, st: State,
                                        o: Oracle, st': State)
    requires Consistent(ever, st, s, {}) && Later(EvalKeywords(ks, st, o).1, st')
    ensures var (vs, st1) := EvalKeywords(ks, st, o);
      st1.out.Running? ==>
        if NamedArg(ks, names) == [] then NamedValue(ks, vs, names).Other?
        else IsStagingExpr(NamedArg(ks, names)[0], s) ==> Private(NamedValue(ks, vs, names), Counted(ever, st', {}))
    decreases ks
  {
    if ks != [] {
      var (v, st1) := Eval(ks[0].value, st, Sub(o, 0));
      ConsistentLater(ever, st, st1, s, {});
      if ks[0].arg in names {
        if IsStagingExpr(ks[0].value, s) { StagingArg(ever, ks[0].value, s, st, Sub(o, 0), st'); }
      } else {
        StagingNamed(ever, ks[1..], names, s, st1, Sub(o, 1), st');
      }
    }
  }

  /** What a quiet call truncates is private, given its evaluated parts. */
  lemma {:induction false} CallInside(ever: bool, call: Expr, s: set<string>, st: State, o: Oracle)
    requires call.Call? && Consistent(ever, st, s, {}) && QuietCall(call, s)
    ensures var (obj, st1) := Eval(Receiver(call), st, Sub(o, 0));
      var (args, st2) := EvalAll(call.args, st1, Sub(o, 1));
      var (named, st3) := EvalKeywords(call.keywords, st2, Sub(o, 2));
      var v := Truncated(call, obj, args, named);
      && (st3.out.Running? && v.Place? ==> Private(v, Counted(ever, st3, {})))
      && Marks(ever, WriteTo(v, st3)) == Marks(ever, st3)
  {
    hide Eval, EvalAll, EvalKeywords, IsStagingExpr, IsTruncatingMode, ArgOr, MayBeOther;
    var (obj, st1) := Eval(Receiver(call), st, Sub(o, 0));
    var (args, st2) := EvalAll(call.args, st1, Sub(o, 1));
    var (named, st3) := EvalKeywords(call.keywords, st2, Sub(o, 2));
    var v := Truncated(call, obj, args, named);
    if st3.out.Running? && v.Place? {
      var func := call.func;
      if func.Attribute? && IsStagingExpr(func.obj, s) { StagingArg(ever, func.obj, s, st, Sub(o, 0), st3); }
      if func.Attribute? && !MayBeOther(func.obj, s) { PathValue(ever, func.obj, s, st, Sub(o, 0)); }
      ConsistentLater(ever, st, st2, s, {});
      StagingNamed(ever, call.keywords, FILE_KEYWORDS, s, st2, Sub(o, 2), st3);
      StagingNamed(ever, call.keywords, {"file"}, s, st2, Sub(o, 2), st3);
      if call.args != [] { FirstArg(ever, call, s, st, o); }
    }
    WriteInside(ever, v, st3);
  }

  lemma {:induction false} FirstArg(ever: bool, call: Expr, s: set<string>, st: State, o: Oracle)
    requires call.Call? && call.args != [] && Consistent(ever, st, s, {})
    ensures var st1 := Eval(Receiver(call), st, Sub(o, 0)).1;
      var (args, st2) := EvalAll(call.args, st1, Sub(o, 1));
      var st3 := EvalKeywords(call.keywords, st2, Sub(o, 2)).1;
      st3.out.Running? && IsStagingExpr(call.args[0], s) ==> Private(args[0], Counted(ever, st3, {}))
  {
    var st1 := Eval(Receiver(call), st, Sub(o, 0)).1;
    var st2 := EvalAll(call.args, st1, Sub(o, 1)).1;
    var st3 := EvalKeywords(call.keywords, st2, Sub(o, 2)).1;
    ConsistentLater(ever, st, st1, s, {});
    if IsStagingExpr(call.args[0], s) { StagingArg(ever, call.args[0], s, st1, Sub(Sub(o, 1), 0), st3); }
  }

  lemma {:induction false} ExprInside(ever: bool, e: Expr, s: set<string>, st: State, o: Oracle)
    requires Consistent(ever, st, s, {}) && QuietExpr(e, s)
    ensures Marks(ever, Eval(e, st, o).1) == Marks(ever, st)
    decreases e, 1
  {
    match e {
      case Name(_) =>
      case Str(_) =>
      case Const =>
      case Attribute(obj, _) => ExprInside(ever, obj, s, st, Sub(o, 0));
      case Div(left, right) =>
        ExprInside(ever, left, s, st, Sub(o, 0));
        var st1 := Eval(left, st, Sub(o, 0)).1;
        ConsistentLater(ever, st, st1, s, {});
        ExprInside(ever, right, s, st1, Sub(o, 1));
      case Call(func, args, keywords, _) =>
        CallPartsInside(ever, e, s, st, o);
      case Compound(parts) => ExprsInside(ever, parts, s, st, Sub(o, 0));
    }
  }

  lemma {:induction false} CallPartsInside(ever: bool, call: Expr, s: set<string>, st: State, o: Oracle)
    requires call.Call? && Consistent(ever, st, s, {}) && QuietExpr(call, s)
    ensures Marks(ever, EvalCall(call, st, o).1) == Marks(ever, st)
    decreases call, 0
  {
    hide QuietCall, Truncated, IsStagingExpr, EvalAll, EvalKeywords, Eval;
    CallInside(ever, call, s, st, o);
    assert QuietExpr(Receiver(call), s);
    ExprInside(ever, Receiver(call), s, st, Sub(o, 0));
    var st1 := Eval(Receiver(call), st, Sub(o, 0)).1;
    ConsistentLater(ever, st, st1, s, {});
    ExprsInside(ever, call.args, s, st1, Sub(o, 1));
    KeywordsInside(ever, call.keywords, s, EvalAll(call.args, st1, Sub(o, 1)).1, Sub(o, 2));
  }

  lemma {:induction false} ExprsInside(ever: bool, es: seq<Expr>, s: set<string>, st: State, o: Oracle)
    requires Consistent(ever, st, s, {}) && QuietExprs(es, s)
    ensures Marks(ever, EvalAll(es, st, o).1) == Marks(ever, st)
    ensures Consistent(ever, EvalAll(es, st, o).1, s, {})
    decreases es, 0
  {
    if es != [] {
      ExprInside(ever, es[0], s, st, Sub(o, 0));
      var st1 := Eval(es[0], st, Sub(o, 0)).1;
      ConsistentLater(ever, st, st1, s, {});
      ExprsInside(ever, es[1..], s, st1, Sub(o, 1));
    }
  }

  lemma {:induction false} KeywordsInside(ever: bool, ks: seq<Keyword>, s: set<string>, st: State, o: Oracle)
    requires Consistent(ever, st, s, {}) && QuietKeywords(ks, s)
    ensures Marks(ever, EvalKeywords(ks, st, o).1) == Marks(ever, st)
    decreases ks, 0
  {
    if ks != [] {
      ExprInside(ever, ks[0].value, s, st, Sub(o, 0));
      var st1 := Eval(ks[0].value, st, Sub(o, 0)).1;
      ConsistentLater(ever, st, st1, s, {});
      KeywordsInside(ever, ks[1..], s, st1, Sub(o, 1));
    }
  }
}
