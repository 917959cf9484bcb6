/** When the exit status of the handler check is right. */
module HandlerCheckVerdict {
  import opened HandlerCheck
  import opened HandlerCheckExact

  // ----- exceptions

  ghost predicate SomeRaises(w: World, visited: seq<Path>, from: nat) {
    exists i | from <= i < |visited| :: RaisesAt(w, visited[i])
  }

  lemma {:induction false} VisitRaised(w: World, path: Path, s: State)
    requires Finite(w) && w.found(path) && !s.raised
    ensures var r := Visit(w, path, s);
      s.visited <= r.visited && (r.raised ==> SomeRaises(w, r.visited, |s.visited|))
    decreases w.files - s.seen, 0
  {
    if w.resolve(path) !in s.seen {
      var s1 := s.(seen := s.seen + {w.resolve(path)}, visited := s.visited + [path]);
      var r := Visit(w, path, s);
      assert s1.visited[|s.visited|] == path;
      match w.load(path)
      case Loaded(spec) =>
        StepsRaised(w, path, spec, 0, s1);
        assert spec.steps[0..] == spec.steps;
        assert r.visited[|s.visited|] == path;
      case _ =>
    }
  }

  lemma {:induction false} StepsRaised(w: World, path: Path, spec: Spec, k: nat, s: State)
    requires Finite(w) && w.load(path) == Loaded(spec) && k <= |spec.steps| && !s.raised
    ensures var r := VisitSteps(w, path, spec, spec.steps[k..], s);
      && s.visited <= r.visited
      && (r.raised ==> RaisesAt(w, path) || SomeRaises(w, r.visited, |s.visited|))
    decreases w.files - s.seen, |spec.steps| - k + 1
  {
    hide Visit;
    if k < |spec.steps| {
      var steps := spec.steps[k..];
      assert steps[0] == spec.steps[k] && steps[1..] == spec.steps[k + 1..];
      var s1 := AfterHandler(w, path, steps[0], s);
      if !s1.raised {
        var s2 := VisitUse(w, path, spec, steps[0], s1);
        if UseOf(w, path, spec, steps[0]).Sub? { VisitRaised(w, UseOf(w, path, spec, steps[0]).path, s1); }
        if !s2.raised { StepsRaised(w, path, spec, k + 1, s2); }
      }
    }
  }

  // ----- what the command reports

  lemma {:induction false} NoStepFaults(w: World, path: Path, spec: Spec, steps: seq<Step>)
    ensures StepsFaults(w, path, spec, steps) == [] <==>
      forall k | 0 <= k < |steps| ::
        HandlerFaults(w, path, steps[k]) == [] && UseFaults(w, path, spec, steps[k]) == []
  {
    if steps != [] {
      NoStepFaults(w, path, spec, steps[1..]);
      assert forall k | 0 < k < |steps| :: steps[k] == steps[1..][k - 1];
      assert forall k | 0 <= k < |steps| - 1 :: steps[1..][k] == steps[k + 1];
    }
  }

  lemma {:induction false} SoundStep(w: World, path: Path, spec: Spec, step: Step)
    ensures StepSound(w, path, spec, step) <==>
      && HandlerFaults(w, path, step) == [] && UseFaults(w, path, spec, step) == []
      && !HandlerRaises(w, path, step) && !UseOf(w, path, spec, step).UseRaises?
  {
    UseOfExact(w, path, spec, step);
    var u := UseOf(w, path, spec, step);
    if u.Sub? { assert NamesFile(w, path, spec, step.uses, u.path); }
    hide UseOf, NamesFile, IsDepRef;
  }

  lemma {:induction false} SoundExact(w: World, path: Path)
    ensures Sound(w, path) <==> !RaisesAt(w, path) && FaultsAt(w, path) == []
  {
    match w.load(path)
    case Loaded(spec) =>
      NoStepFaults(w, path, spec, spec.steps);
      forall k | 0 <= k < |spec.steps|
        ensures StepSound(w, path, spec, spec.steps[k]) <==>
          && HandlerFaults(w, path, spec.steps[k]) == [] && UseFaults(w, path, spec, spec.steps[k]) == []
          && !HandlerRaises(w, path, spec.steps[k]) && !UseOf(w, path, spec, spec.steps[k]).UseRaises?
      {
        SoundStep(w, path, spec, spec.steps[k]);
      }
      hide StepSound, HandlerFaults, UseFaults, HandlerRaises, UseOf;
    case _ =>
  }

  lemma {:induction false} NoFaults(w: World, visited: seq<Path>)
    ensures AllFaults(w, visited) == multiset{} <==> forall i | 0 <= i < |visited| :: FaultsAt(w, visited[i]) == []
  {
    if visited != [] {
      NoFaults(w, visited[1..]);
      assert FaultsAt(w, visited[0]) == [] <==> multiset(FaultsAt(w, visited[0])) == multiset{} by {
        if FaultsAt(w, visited[0]) != [] {
          assert FaultsAt(w, visited[0])[0] in multiset(FaultsAt(w, visited[0]));
        }
      }
      assert forall i | 0 < i < |visited| :: visited[i] == visited[1..][i - 1];
      assert forall i | 0 <= i < |visited| - 1 :: visited[1..][i] == visited[i + 1];
    }
  }

  /** A run that no exception ends reads each spec file once, only reachable ones, reports each of their faults
      exactly once and counts each of their code handlers; an exception comes from a reachable spec. */
  lemma {:induction false} CheckReports(w: World, start: Path)
    requires Finite(w) && w.found(start)
    ensures var r := Check(w, start);
      && Once(w, r) && AllReached(w, start, r.visited)
      && (!r.raised ==> multiset(r.errors) == AllFaults(w, r.visited) && r.checked == AllCodes(w, r.visited))
      && (r.raised ==> SomeRaises(w, r.visited, 0))
      && (!r.raised ==> w.resolve(start) in r.seen && AllDone(w, r.visited, 0, r.seen))
  {
    var s := State({}, [], 0, [], false);
    var r := Check(w, start);
    VisitOnce(w, start, s);
    VisitReached(w, start, s);
    VisitAccounts(w, start, s);
    VisitRaised(w, start, s);
    VisitDone(w, start, s);
    assert r.visited[0..] == r.visited;
  }

  /** What is reported of a run that no exception ends: exactly what is wrong with the specs it reads, which are closed
      under `uses:`. */
  lemma {:induction false} ReportsExactly(w: World, start: Path, f: Fault)
    requires Finite(w) && w.found(start) && !Check(w, start).raised
    ensures var r := Check(w, start);
      && (f in r.errors <==> exists i | 0 <= i < |r.visited| :: IsFault(w, r.visited[i], f))
      && (forall i, sub | 0 <= i < |r.visited| && Uses(w, r.visited[i], sub) :: ReadBy(w, r, sub))
      && ReadBy(w, r, start)
  {
    hide Check, IsFault, FaultsAt, Uses, Done, Reaches;
    CheckReports(w, start);
    var r := Check(w, start);
    AllFaultsExact(w, r.visited, f);
    assert f in r.errors <==> f in multiset(r.errors);
    forall i, sub | 0 <= i < |r.visited| && Uses(w, r.visited[i], sub) ensures ReadBy(w, r, sub) {
      UsedIsSeen(w, r.visited[i], sub, r.seen);
    }
  }

  /** The file has been read, by whichever path. */
  ghost predicate ReadBy(w: World, r: State, path: Path) {
    exists i :: 0 <= i < |r.visited| && w.resolve(r.visited[i]) == w.resolve(path)
  }

  lemma {:induction false} AllFaultsExact(w: World, visited: seq<Path>, f: Fault)
    ensures f in AllFaults(w, visited) <==> exists i | 0 <= i < |visited| :: IsFault(w, visited[i], f)
    decreases visited
  {
    if visited != [] {
      FaultsExact(w, visited[0], f);
      AllFaultsExact(w, visited[1..], f);
      hide IsFault, FaultsAt;
      assert forall i | 0 < i < |visited| :: visited[i] == visited[1..][i - 1];
      assert forall i | 0 <= i < |visited| - 1 :: visited[1..][i] == visited[i + 1];
    }
  }

  /** Success means exactly that every spec the walk read is sound. */
  lemma {:induction false} PassesExactly(w: World, start: Path)
    requires Finite(w) && w.found(start)
    ensures var r := Check(w, start);
      Passes(r) <==> !r.raised && forall i | 0 <= i < |r.visited| :: Sound(w, r.visited[i])
  {
    hide Check, Sound, RaisesAt, FaultsAt, AllFaults, AllCodes, Once, AllReached, AllDone;
    CheckReports(w, start);
    var r := Check(w, start);
    NoFaults(w, r.visited);
    forall i | 0 <= i < |r.visited|
      ensures Sound(w, r.visited[i]) <==> !RaisesAt(w, r.visited[i]) && FaultsAt(w, r.visited[i]) == []
    {
      SoundExact(w, r.visited[i]);
    }
    if !r.raised {
      DoneNoRaise(w, r);
      assert r.errors == [] <==> multiset(r.errors) == multiset{} by {
        if r.errors != [] { assert r.errors[0] in multiset(r.errors); }
      }
    }
  }

  lemma {:induction false} DoneNoRaise(w: World, r: State)
    requires AllDone(w, r.visited, 0, r.seen)
    ensures forall i | 0 <= i < |r.visited| :: !RaisesAt(w, r.visited[i])
  {
    forall i | 0 <= i < |r.visited| ensures !RaisesAt(w, r.visited[i]) {
      assert Done(w, r.visited[i], r.seen);
    }
  }

  /** A failing exit always points at something: some reachable spec is not sound. */
  lemma {:induction false} FailureIsReal(w: World, start: Path)
    requires Finite(w) && w.found(start) && !Passes(Check(w, start))
    ensures exists p :: Reaches(w, start, p) && !Sound(w, p)
  {
    hide Check, Sound, AllFaults, AllCodes, Reaches;
    CheckReports(w, start);
    PassesExactly(w, start);
    var r := Check(w, start);
    if r.raised {
      var i :| 0 <= i < |r.visited| && RaisesAt(w, r.visited[i]);
      SoundExact(w, r.visited[i]);
    }
  }

  // ----- when success covers everything

  ghost predicate SameFile(w: World, p: Path, q: Path) {
    w.found(p) && w.found(q) && w.resolve(p) == w.resolve(q)
  }

  /** What every file system gives: a file has its content under each of its paths, and a directory its entries. */
  ghost predicate Laws(w: World) {
    && (forall p | w.found(p) :: w.found(w.parent(p)))
    && (forall p, q | SameFile(w, p, q) :: w.load(p) == w.load(q))
    && (forall a, b, u | SameFile(w, a, b) ::
          w.found(w.join(a, u)) == w.found(w.join(b, u)) && w.resolve(w.join(a, u)) == w.resolve(w.join(b, u)))
    && (forall a, b, h | SameFile(w, a, b) :: w.handler(h, a) == w.handler(h, b))
    && (forall a, b, d, spec | SameFile(w, a, b) :: w.depPath(d, spec, a) == w.depPath(d, spec, b))
  }

  ghost predicate SameTarget(w: World, u: Use, v: Use) {
    u == v || (u.Sub? && v.Sub? && w.resolve(u.path) == w.resolve(v.path)) || (u.NoFile? && v.NoFile?)
  }

  /** One spec file, read from two of its paths: each handler fares alike, and each `uses:` comes to the same file. */
  ghost predicate ReadAlike(w: World, p: Path, q: Path) {
    w.load(p).Loaded? ==>
      var spec := w.load(p).spec;
      forall k | 0 <= k < |spec.steps| ::
        && (IsCode(spec.steps[k]) ==>
              w.handler(spec.steps[k].handler, w.parent(p)) == w.handler(spec.steps[k].handler, w.parent(q)))
        && SameTarget(w, UseOf(w, p, spec, spec.steps[k]), UseOf(w, q, spec, spec.steps[k]))
  }

  /** The spec file is not a symlink to another directory. */
  ghost predicate Unlinked(w: World, path: Path) {
    w.resolve(w.parent(path)) == w.parent(w.resolve(path))
  }

  lemma {:induction false} SameUse(w: World, p: Path, q: Path, spec: Spec, step: Step)
    requires Laws(w) && SameFile(w, w.parent(p), w.parent(q))
    ensures SameTarget(w, UseOf(w, p, spec, step), UseOf(w, q, spec, step))
  {
  }

  /** Paths of one file are read alike when they lie in one directory, as all paths of unlinked spec files do. */
  lemma {:induction false} TogetherAlike(w: World, p: Path, q: Path)
    requires Laws(w) && SameFile(w, p, q)
    requires SameFile(w, w.parent(p), w.parent(q)) || (Unlinked(w, p) && Unlinked(w, q))
    ensures ReadAlike(w, p, q)
  {
    assert SameFile(w, w.parent(p), w.parent(q));
    hide UseOf;
    if w.load(p).Loaded? {
      var spec := w.load(p).spec;
      forall k | 0 <= k < |spec.steps|
        ensures SameTarget(w, UseOf(w, p, spec, spec.steps[k]), UseOf(w, q, spec, spec.steps[k]))
      {
        SameUse(w, p, q, spec, spec.steps[k]);
      }
    }
  }

  lemma {:induction false} AlikeStep(w: World, p: Path, q: Path, spec: Spec, step: Step)
    requires IsCode(step) ==> w.handler(step.handler, w.parent(p)) == w.handler(step.handler, w.parent(q))
    requires SameTarget(w, UseOf(w, p, spec, step), UseOf(w, q, spec, step))
    ensures StepSound(w, p, spec, step) == StepSound(w, q, spec, step)
  {
    SoundStep(w, p, spec, step);
    SoundStep(w, q, spec, step);
    hide UseOf, StepSound;
  }

  /** Two paths at which a spec file is read alike: as sound, and using the same files. */
  lemma {:induction false} Alike(w: World, p: Path, q: Path)
    requires Laws(w) && SameFile(w, p, q) && ReadAlike(w, p, q)
    ensures Sound(w, p) == Sound(w, q)
    ensures forall c | Uses(w, p, c) :: exists d :: Uses(w, q, d) && w.resolve(d) == w.resolve(c)
  {
    if w.load(p).Loaded? {
      var spec := w.load(p).spec;
      forall k | 0 <= k < |spec.steps|
        ensures StepSound(w, p, spec, spec.steps[k]) == StepSound(w, q, spec, spec.steps[k])
      {
        AlikeStep(w, p, q, spec, spec.steps[k]);
      }
      hide UseOf, StepSound;
      forall c | Uses(w, p, c)
        ensures exists d :: Uses(w, q, d) && w.resolve(d) == w.resolve(c)
      {
        var k := UsedBy(w, p, c);
        StepUses(w, q, spec, k, UseOf(w, q, spec, spec.steps[k]).path);
      }
    }
  }

  ghost predicate AllReadAlike(w: World, start: Path) {
    forall p, q | Reaches(w, start, p) && Reaches(w, start, q) && SameFile(w, p, q) :: ReadAlike(w, p, q)
  }

  lemma {:induction false} UsedIsFound(w: World, p: Path, q: Path)
    requires Uses(w, p, q)
    ensures w.found(q)
  {
  }

  lemma {:induction false} UsedIsSeen(w: World, p: Path, q: Path, seen: set<Path>)
    requires Uses(w, p, q) && Done(w, p, seen)
    ensures w.resolve(q) in seen
  {
    var spec := w.load(p).spec;
    var k := UsedBy(w, p, q);
    assert StepDone(w, p, spec, spec.steps[k], seen);
  }

  /** The walk has read the file of every spec on a chain. */
  lemma {:induction false} ChainSeen(w: World, start: Path, chain: seq<Path>, k: nat)
    requires Finite(w) && w.found(start) && Laws(w) && AllReadAlike(w, start) && !Check(w, start).raised
    requires Chain(w, chain) && chain[0] == start && k < |chain|
    ensures w.found(chain[k]) && Reaches(w, start, chain[k])
    ensures var r := Check(w, start);
      exists i :: 0 <= i < |r.visited| && w.found(r.visited[i]) && Reaches(w, start, r.visited[i])
        && w.resolve(r.visited[i]) == w.resolve(chain[k])
  {
    hide Check, Reaches, AllFaults, AllCodes, Done, Uses, Laws, ReadAlike;
    CheckReports(w, start);
    var r := Check(w, start);
    PrefixReaches(w, chain, k);
    if k > 0 {
      ChainSeen(w, start, chain, k - 1);
      var i :| 0 <= i < |r.visited| && w.found(r.visited[i]) && Reaches(w, start, r.visited[i])
        && w.resolve(r.visited[i]) == w.resolve(chain[k - 1]);
      Alike(w, chain[k - 1], r.visited[i]);
      assert Uses(w, chain[k - 1], chain[k]);
      UsedIsFound(w, chain[k - 1], chain[k]);
      var d :| Uses(w, r.visited[i], d) && w.resolve(d) == w.resolve(chain[k]);
      UsedIsSeen(w, r.visited[i], d, r.seen);
    }
    assert w.resolve(chain[k]) in r.seen;
  }

  lemma {:induction false} PrefixReaches(w: World, chain: seq<Path>, k: nat)
    requires Chain(w, chain) && k < |chain|
    ensures Reaches(w, chain[0], chain[k])
  {
    var prefix := chain[..k + 1];
    assert forall i | 0 <= i <= k :: prefix[i] == chain[i];
    assert Chain(w, prefix) && prefix[|prefix| - 1] == chain[k];
  }

  /** The check passes if and only if every reachable spec is valid, all its handlers resolve and all its `uses:`
      targets exist, on every tree, cycles and symlinks included, on which no reachable spec file is read differently
      from two of its paths. */
  lemma {:induction false} CheckExact(w: World, start: Path)
    requires Finite(w) && w.found(start) && Laws(w) && AllReadAlike(w, start)
    ensures Passes(Check(w, start)) <==> forall p | Reaches(w, start, p) :: Sound(w, p)
  {
    hide Check, Sound, Laws, ReadAlike;
    if Passes(Check(w, start)) {
      PassesExactly(w, start);
      var r := Check(w, start);
      forall p | Reaches(w, start, p) ensures Sound(w, p) {
        var chain :| Chain(w, chain) && chain[0] == start && chain[|chain| - 1] == p;
        ChainSeen(w, start, chain, |chain| - 1);
        var i :| 0 <= i < |r.visited| && w.found(r.visited[i]) && Reaches(w, start, r.visited[i])
          && w.resolve(r.visited[i]) == w.resolve(p);
        Alike(w, p, r.visited[i]);
      }
    } else {
      FailureIsReal(w, start);
    }
  }

  // ----- for which directory layouts the verdict is right

  /** The same files at the same paths; what the files hold may differ. */
  ghost predicate SameLayout(w: World, v: World) {
    w.files == v.files && w.resolve == v.resolve && w.parent == v.parent && w.join == v.join && w.found == v.found
  }

  ghost predicate OnlySpecs(w: World, specs: set<Path>) {
    forall p | w.found(p) && w.load(p).Loaded? :: w.resolve(p) in specs
  }

  ghost predicate RightFrom(w: World, start: Path)
    requires Finite(w) && w.found(start)
  {
    Passes(Check(w, start)) <==> forall p | Reaches(w, start, p) :: Sound(w, p)
  }

  /** Whatever the files hold, as long as specs are among `specs`, and from whichever spec the check starts. */
  ghost predicate AlwaysRight(w: World, specs: set<Path>) {
    forall v: World, start: Path |
      SameLayout(w, v) && Finite(v) && Laws(v) && OnlySpecs(v, specs) && v.found(start) :: RightFrom(v, start)
  }

  /** All paths of one spec file lie in one directory. */
  ghost predicate OneDirectory(w: World, specs: set<Path>) {
    forall p, q | SameFile(w, p, q) && w.resolve(p) in specs :: SameFile(w, w.parent(p), w.parent(q))
  }

  lemma {:induction false} OneDirectoryRight(w: World, specs: set<Path>, v: World, start: Path)
    requires OneDirectory(w, specs)
    requires SameLayout(w, v) && Finite(v) && Laws(v) && OnlySpecs(v, specs) && v.found(start)
    ensures RightFrom(v, start)
  {
    forall p, q | Reaches(v, start, p) && Reaches(v, start, q) && SameFile(v, p, q) ensures ReadAlike(v, p, q) {
      if v.load(p).Loaded? {
        assert SameFile(w, p, q) && w.resolve(p) in specs;
        TogetherAlike(v, p, q);
      }
    }
    CheckExact(v, start);
  }

  const USING := Spec([Step("run", "code", "h.py:f", ""), Step("again", "composite", "", "deps.x")], map["x" := "x"])

  /** The file of `p` and `q` is the only spec.  It uses itself as `q`, and its handler exists beside `p` only. */
  function UsingItself(w: World, p: Path, q: Path): World {
    w.(load := x => if w.found(x) && w.resolve(x) == w.resolve(p) then Loaded(USING) else Invalid,
       handler := (name, d) => if w.found(d) && w.resolve(d) == w.resolve(w.parent(p)) then Resolves else Fails,
       depPath := (name, spec, d) => At(q))
  }

  lemma {:induction false} UsingItselfLaws(w: World, p: Path, q: Path)
    requires Finite(w) && Laws(w) && SameFile(w, p, q)
    ensures Finite(UsingItself(w, p, q)) && Laws(UsingItself(w, p, q))
  {
  }

  /** The two steps of the spec, read from `p`: the handler resolves, and `q` has been seen. */
  lemma {:induction false} ItsSteps(w: World, p: Path, q: Path, s: State)
    requires Finite(w) && Laws(w) && SameFile(w, p, q) && w.resolve(q) in s.seen && !s.raised
    ensures var v := UsingItself(w, p, q);
      && UseOf(v, p, USING, USING.steps[1]) == Sub(q)
      && VisitUse(v, p, USING, USING.steps[0], AfterHandler(v, p, USING.steps[0], s)) == s.(checked := s.checked + 1)
      && !AfterHandler(v, p, USING.steps[0], s).raised && AfterHandler(v, p, USING.steps[1], s) == s
      && VisitUse(v, p, USING, USING.steps[1], s) == s
  {
    var v := UsingItself(w, p, q);
    assert v.found(v.parent(p)) && USING.steps[1].uses[5..] == "x";
    assert UseOf(v, p, USING, USING.steps[1]) == Sub(q);
    assert s.errors + [] == s.errors;
  }

  lemma {:induction false} UsesItself(w: World, p: Path, q: Path)
    requires Finite(w) && Laws(w) && SameFile(w, p, q)
    ensures var v := UsingItself(w, p, q);
      Finite(v) && Laws(v) && Passes(Check(v, p)) && Uses(v, p, q)
  {
    UsingItselfLaws(w, p, q);
    var v := UsingItself(w, p, q);
    var none, s := State({}, [], 0, [], false), State({v.resolve(p)}, [], 0, [p], false);
    assert none.(seen := none.seen + {v.resolve(p)}, visited := none.visited + [p]) == s;
    assert v.load(p) == Loaded(USING);
    hide Laws, UseOf, AfterHandler, VisitUse, UsingItself;
    ItsSteps(w, p, q, s);
    ItsSteps(w, p, q, s.(checked := 1));
    TwoSteps(v, p, s);
    assert Check(v, p) == s.(checked := 1);
  }

  lemma {:induction false} TwoSteps(w: World, p: Path, s: State)
    requires Finite(w) && !s.raised && !AfterHandler(w, p, USING.steps[0], s).raised
    requires var s1 := s.(checked := 1);
      && VisitUse(w, p, USING, USING.steps[0], AfterHandler(w, p, USING.steps[0], s)) == s1
      && AfterHandler(w, p, USING.steps[1], s1) == s1 && VisitUse(w, p, USING, USING.steps[1], s1) == s1
    ensures VisitSteps(w, p, USING, USING.steps, s) == s.(checked := 1)
  {
    hide AfterHandler, VisitUse;
    var s1, rest := s.(checked := 1), USING.steps[1..];
    assert rest[1..] == [] && rest[0] == USING.steps[1];
    assert VisitSteps(w, p, USING, rest, s1) == s1;
  }

  lemma {:induction false} ElsewhereUnsound(w: World, p: Path, q: Path)
    requires Laws(w) && SameFile(w, p, q) && !SameFile(w, w.parent(p), w.parent(q))
    ensures !Sound(UsingItself(w, p, q), q)
  {
    var v := UsingItself(w, p, q);
    assert v.load(q) == Loaded(USING) && IsCode(USING.steps[0]);
    assert v.handler("h.py:f", v.parent(q)) == Fails;
  }

  /** For a directory layout the check is right, whatever its specs say and whatever handlers there are, if and only if
      no spec file has paths in different directories. */
  lemma {:induction false} LayoutExact(w: World, specs: set<Path>)
    requires Finite(w) && Laws(w)
    ensures AlwaysRight(w, specs) <==> OneDirectory(w, specs)
  {
    hide RightFrom, Check, Laws;
    if OneDirectory(w, specs) {
      forall v: World, start: Path |
        SameLayout(w, v) && Finite(v) && Laws(v) && OnlySpecs(v, specs) && v.found(start) ensures RightFrom(v, start)
      {
        OneDirectoryRight(w, specs, v, start);
      }
    } else {
      var p, q :| SameFile(w, p, q) && w.resolve(p) in specs && !SameFile(w, w.parent(p), w.parent(q));
      var v := UsingItself(w, p, q);
      UsesItself(w, p, q);
      ElsewhereUnsound(w, p, q);
      assert SameLayout(w, v) && OnlySpecs(v, specs);
      NotRight(v, p, q);
    }
  }

  lemma {:induction false} NotRight(w: World, p: Path, q: Path)
    requires Finite(w) && w.found(p) && Passes(Check(w, p)) && Uses(w, p, q) && !Sound(w, q)
    ensures !RightFrom(w, p)
  {
    var chain := [p, q];
    assert Chain(w, chain) && chain[0] == p && chain[|chain| - 1] == q;
    assert Reaches(w, p, q);
  }

  // ----- a linked spec

  /** `b/s` is a symlink to the spec `a/s`, whose handler exists beside `a/s` only. */
  function LinkedWorld(): World {
    World({".", "a", "b", "t", "a/s"},
          p => if p == "b/s" then "a/s" else p,
          p => if p == "a/s" then "a" else if p == "b/s" then "b" else ".",
          (root, name) => name,
          p => p in {".", "a", "b", "t", "a/s", "b/s"},
          p => if p == "t" then
                 Loaded(Spec([Step("one", "composite", "", "a/s"), Step("two", "composite", "", "b/s")], map[]))
               else Loaded(Spec([Step("run", "code", "h.py:f", "")], map[])),
          (name, root) => if root == "a" then Resolves else Fails,
          (name, spec, root) => PlaceRaises)
  }

  lemma {:induction false} LinkedLeaf(s: State)
    requires s == State({"t"}, [], 0, ["t"], false)
    ensures Finite(LinkedWorld())
    ensures Visit(LinkedWorld(), "a/s", s) == State({"t", "a/s"}, [], 1, ["t", "a/s"], false)
  {
    var w := LinkedWorld();
    var leaf := w.load("a/s").spec;
    var s1 := s.(seen := s.seen + {"a/s"}, visited := s.visited + ["a/s"]);
    var s2 := State({"t", "a/s"}, [], 1, ["t", "a/s"], false);
    assert AfterHandler(w, "a/s", leaf.steps[0], s1) == s2;
    assert VisitSteps(w, "a/s", leaf, leaf.steps, s1) == s2 by {
      assert leaf.steps[1..] == [];
    }
  }

  lemma {:induction false} LinkedTop()
    ensures Finite(LinkedWorld())
    ensures Check(LinkedWorld(), "t") == State({"t", "a/s"}, [], 1, ["t", "a/s"], false)
  {
    var w := LinkedWorld();
    var s0, s1 := State({}, [], 0, [], false), State({"t"}, [], 0, ["t"], false);
    assert s0.(seen := s0.seen + {"t"}, visited := s0.visited + ["t"]) == s1;
    LinkedLeaf(s1);
    LinkedSteps(s1);
  }

  lemma {:induction false} LinkedSteps(s: State)
    requires s == State({"t"}, [], 0, ["t"], false)
    ensures Finite(LinkedWorld())
    ensures var w := LinkedWorld(); var top := w.load("t").spec;
      VisitSteps(w, "t", top, top.steps, s) == State({"t", "a/s"}, [], 1, ["t", "a/s"], false)
  {
    var w := LinkedWorld();
    var top := w.load("t").spec;
    LinkedLeaf(s);
    hide Visit;
    var s1 := State({"t", "a/s"}, [], 1, ["t", "a/s"], false);
    assert VisitUse(w, "t", top, top.steps[0], s) == s1;
    assert Visit(w, "b/s", s1) == s1 by { LinkedSkip(s1); }
    assert VisitUse(w, "t", top, top.steps[1], s1) == s1;
    assert top.steps[1..][0] == top.steps[1] && top.steps[1..][1..] == [];
    assert VisitSteps(w, "t", top, top.steps[1..], s1) == s1;
  }

  lemma {:induction false} LinkedSkip(s: State)
    requires "a/s" in s.seen
    ensures Finite(LinkedWorld()) && Visit(LinkedWorld(), "b/s", s) == s
  {
  }

  /** Without the condition the check can pass over a broken spec: one that it read under another path. */
  lemma {:induction false} LinkedSpecMissed()
    ensures var w := LinkedWorld();
      && Finite(w) && w.found("t") && Laws(w)
      && Passes(Check(w, "t")) && Uses(w, "t", "b/s") && !Sound(w, "b/s")
  {
    LinkedTop();
    hide Check;
    var w := LinkedWorld();
    var top := w.load("t").spec;
    assert UseOf(w, "t", top, top.steps[1]) == Sub("b/s");
    var leaf := w.load("b/s").spec;
    assert IsCode(leaf.steps[0]);
  }
}
