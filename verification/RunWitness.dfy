/** Building runs in which an expression gives a path outside the private places, or truncates one. */
module RunWitness {
  import opened Common
  import opened PurePaths
  import opened PyAst
  import opened WriteScanner
  import opened PyRuns
  import opened FlowSoundness
  import opened PyLiterals

  // ----- states and values of the runs that are built

  /** A private place with a name of its own, longer than any literal. */
  predicate IsRoot(p: Path, n: nat) {
    p.abs && |p.parts| == 1 && |p.parts[0]| >= n
  }

  /** A path that starts like a private place lies in one that has been made. */
  predicate Tame(v: Value, made: set<Path>, n: nat) {
    v.Place? && v.path.abs && v.path.parts != [] && |v.path.parts[0]| >= n ==> Path(true, [v.path.parts[0]]) in made
  }

  ghost predicate Ready(st: State, n: nat) {
    && st.out.Running? && st.ended <= st.made
    && (forall p | p in st.made :: IsRoot(p, n))
    && (forall x | x in st.env :: Tame(st.env[x], st.made, n))
  }

  ghost predicate Lost(v: Value, places: set<Path>) {
    v.Place? && !InRoots(v.path, places)
  }

  /** A name, if one is given, that does not hold a path in the places that count. */
  ghost predicate Missing(ever: bool, st: State, x: Option<string>, gone: set<Path>) {
    x.Some? && x.value in st.env ==> Lost(st.env[x.value], Counted(ever, st, gone))
  }

  const OUT := Place(Path(false, ["out"]))

  function Calm(root: Path): Choice {
    Choice(false, false, 0, OUT, root, _ => OUT, map[])
  }

  const QUIET := Oracle(Calm(Path(true, [])), [])

  lemma {:induction false} OutLost(places: set<Path>, made: set<Path>, n: nat)
    requires forall p | p in places :: IsRoot(p, n)
    ensures Lost(OUT, places) && Tame(OUT, made, n)
  {
  }

  lemma {:induction false} LongName(made: set<Path>, n: nat) returns (name: string)
    ensures |name| >= n && Path(true, [name]) !in made
    decreases |made|
  {
    if p :| p in made {
      name := LongName(made - {p}, n + |if p.parts == [] then "" else p.parts[0]| + 1);
    } else {
      name := Repeat(n);
    }
  }

  lemma {:induction false} Repeat(n: nat) returns (s: string)
    ensures |s| == n
  {
    if n == 0 {
      s := "";
    } else {
      var t := Repeat(n - 1);
      s := t + "p";
    }
  }

  lemma {:induction false} UnderRoot(root: Path, path: Path, n: nat)
    requires IsRoot(root, n)
    ensures Under(root, path) <==>
      path.abs && path.parts != [] && path.parts[0] == root.parts[0] && DOTDOT !in path.parts[1..]
  {
    if path.parts != [] { assert root.parts <= path.parts <==> path.parts[0] == root.parts[0]; }
  }

  lemma {:induction false} TameLater(v: Value, made: set<Path>, made': set<Path>, n: nat)
    requires Tame(v, made, n) && made <= made'
    ensures Tame(v, made', n)
  {
  }

  /** What is outside stays outside: later places are new. */
  lemma {:induction false} LostLater(ever: bool, v: Value, st: State, st': State, gone: set<Path>, gone': set<Path>,
                                     n: nat)
    requires Tame(v, st.made, n) && Lost(v, Counted(ever, st, gone)) && Later(st, st')
    requires (forall p | p in st'.made :: IsRoot(p, n)) && (ever || gone <= gone')
    ensures Lost(v, Counted(ever, st', gone'))
  {
    forall root | root in Counted(ever, st', gone') ensures !Under(root, v.path) {
      UnderRoot(root, v.path, n);
      assert root == Path(true, root.parts) && root.parts == [root.parts[0]];
    }
  }

  lemma {:induction false} MissingLater(ever: bool, x: Option<string>, st: State, st': State, gone: set<Path>,
                                        gone': set<Path>, n: nat)
    requires Ready(st, n) && Missing(ever, st, x, gone) && Later(st, st') && st'.env == st.env
    requires (forall p | p in st'.made :: IsRoot(p, n)) && (ever || gone <= gone')
    ensures Missing(ever, st', x, gone')
  {
    if x.Some? && x.value in st.env { LostLater(ever, st.env[x.value], st, st', gone, gone', n); }
  }

  // ----- joins

  lemma {:induction false} JoinTame(v: Value, text: string, made: set<Path>, n: nat)
    requires Tame(v, made, n) && |text| < n
    ensures Tame(JoinText(v, text, OUT), made, n)
  {
    LiteralShort(text, n);
  }

  lemma {:induction false} JoinLost(v: Value, text: string, places: set<Path>, n: nat)
    requires Lost(v, places) && |text| < n && forall p | p in places :: IsRoot(p, n)
    ensures Lost(JoinText(v, text, OUT), places)
  {
    LiteralShort(text, n);
    var lit := ParsePath(text);
    var path := Join(v.path, lit);
    forall root | root in places ensures !Under(root, path) {
      UnderRoot(root, path, n);
      UnderRoot(root, v.path, n);
      if !lit.abs && v.path.parts != [] { assert path.parts[1..] == v.path.parts[1..] + lit.parts; }
    }
  }

  /** A literal that is absolute or leads up takes any path out of a place. */
  lemma {:induction false} JoinEscapes(v: Value, lit: Expr, places: set<Path>, n: nat)
    requires lit.Str? && !IsRelativeLiteral(lit) && |lit.value| < n && forall p | p in places :: IsRoot(p, n)
    ensures Lost(JoinText(v, lit.value, OUT), places)
  {
    LiteralShort(lit.value, n);
    var lit' := ParsePath(lit.value);
    if v.Place? {
      var path := Join(v.path, lit');
      forall root | root in places ensures !Under(root, path) {
        UnderRoot(root, path, n);
        if !lit'.abs && v.path.parts != [] { assert path.parts[1..] == v.path.parts[1..] + lit'.parts; }
      }
    }
  }

  predicate ShortTexts(parts: seq<Expr>, n: nat) {
    forall k | 0 <= k < |parts| && parts[k].Str? :: |parts[k].value| < n
  }

  lemma {:induction false} JoinsTame(v: Value, parts: seq<Expr>, made: set<Path>, n: nat)
    requires Tame(v, made, n) && ShortTexts(parts, n)
    ensures Tame(JoinTexts(v, parts, OUT), made, n)
    decreases parts
  {
    if parts != [] && parts[0].Str? {
      JoinTame(v, parts[0].value, made, n);
      JoinsTame(JoinText(v, parts[0].value, OUT), parts[1..], made, n);
    }
  }

  /** A join gives a path outside if it starts outside or takes a part that is no relative literal. */
  lemma {:induction false} JoinsLost(v: Value, parts: seq<Expr>, places: set<Path>, n: nat)
    requires ShortTexts(parts, n) && forall p | p in places :: IsRoot(p, n)
    requires Lost(v, places) || exists k :: 0 <= k < |parts| && !IsRelativeLiteral(parts[k])
    ensures Lost(JoinTexts(v, parts, OUT), places)
    decreases parts
  {
    if parts != [] && parts[0].Str? {
      if !IsRelativeLiteral(parts[0]) {
        JoinEscapes(v, parts[0], places, n);
      } else if Lost(v, places) {
        JoinLost(v, parts[0].value, places, n);
      } else {
        var k :| 0 <= k < |parts| && !IsRelativeLiteral(parts[k]);
        assert parts[1..][k - 1] == parts[k];
      }
      JoinsLost(JoinText(v, parts[0].value, OUT), parts[1..], places, n);
    }
  }
}
