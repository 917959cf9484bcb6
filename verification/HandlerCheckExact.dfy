/** What the handler check says about a process tree: every fault of every spec it reaches, each spec once, and
    success exactly if there is none. */
module HandlerCheckExact {
  import opened Common
  import opened HandlerCheck

  // ----- faults, and which spec uses which

  function StepsFaults(w: World, path: Path, spec: Spec, steps: seq<Step>): seq<Fault> {
    if steps == [] then []
    else
      HandlerFaults(w, path, steps[0]) + UseFaults(w, path, spec, steps[0]) + StepsFaults(w, path, spec, steps[1..])
  }

  /** The faults of one spec, read from one path. */
  function FaultsAt(w: World, path: Path): seq<Fault> {
    match w.load(path)
    case Loaded(spec) => StepsFaults(w, path, spec, spec.steps)
    case Invalid => [InvalidSpec(path)]
    case LoadRaises => []
  }

  // ----- what the text of a step asks for

  predicate IsDepRef(uses: string) {
    |uses| > |"deps."| && uses[..|"deps."|] == "deps."
  }

  /** `uses:` names the file `sub`: relative to the directory of the spec, or where a declared dependency is found. */
  predicate NamesFile(w: World, path: Path, spec: Spec, uses: string, sub: Path) {
    uses != "" &&
    if IsDepRef(uses) then
      var name := uses[|"deps."|..];
      name in spec.deps && w.depPath(spec.deps[name], spec, w.parent(path)) == At(sub)
    else sub == w.join(w.parent(path), uses)
  }

  predicate AsksHandler(step: Step) {
    step.mode == "code" && step.handler != ""
  }

  ghost predicate StepSound(w: World, path: Path, spec: Spec, step: Step) {
    && (AsksHandler(step) ==> w.handler(step.handler, w.parent(path)) == Resolves)
    && (step.uses != "" ==> exists sub :: NamesFile(w, path, spec, step.uses, sub) && w.found(sub))
  }

  /** A valid spec whose handlers all resolve and whose `uses:` targets all exist. */
  ghost predicate Sound(w: World, path: Path) {
    match w.load(path)
    case Loaded(spec) => forall k | 0 <= k < |spec.steps| :: StepSound(w, path, spec, spec.steps[k])
    case _ => false
  }

  /** An exception that the walk does not catch, from a handler or from the place of a dependency. */
  ghost predicate StepRaises(w: World, path: Path, spec: Spec, step: Step) {
    || (AsksHandler(step) && w.handler(step.handler, w.parent(path)) == Raises)
    || (IsDepRef(step.uses) && step.uses[|"deps."|..] in spec.deps
        && w.depPath(spec.deps[step.uses[|"deps."|..]], spec, w.parent(path)) == PlaceRaises)
  }

  ghost predicate RaisesAt(w: World, path: Path) {
    match w.load(path)
    case Loaded(spec) => exists k | 0 <= k < |spec.steps| :: StepRaises(w, path, spec, spec.steps[k])
    case Invalid => false
    case LoadRaises => true
  }

  ghost predicate Uses(w: World, path: Path, sub: Path) {
    match w.load(path)
    case Loaded(spec) =>
      w.found(sub) && exists k | 0 <= k < |spec.steps| :: NamesFile(w, path, spec, spec.steps[k].uses, sub)
    case _ => false
  }

  /** What is wrong with one step. */
  ghost predicate IsStepFault(w: World, path: Path, spec: Spec, step: Step, f: Fault) {
    match f
    case InvalidSpec(_) => false
    case BadHandler(at, id) =>
      at == path && id == step.id && AsksHandler(step) && w.handler(step.handler, w.parent(path)) == Fails
    case UnknownDep(at, id) =>
      at == path && id == step.id && IsDepRef(step.uses) && step.uses[|"deps."|..] !in spec.deps
    case Missing(at, id, sub) =>
      at == path && id == step.id && NamesFile(w, path, spec, step.uses, sub) && !w.found(sub)
  }

  ghost predicate IsFault(w: World, path: Path, f: Fault) {
    match w.load(path)
    case Invalid => f == InvalidSpec(path)
    case Loaded(spec) => exists k | 0 <= k < |spec.steps| :: IsStepFault(w, path, spec, spec.steps[k], f)
    case LoadRaises => false
  }

  /** What the walk makes of `uses:` is what the text asks for. */
  lemma {:induction false} UseOfExact(w: World, path: Path, spec: Spec, step: Step)
    ensures var u := UseOf(w, path, spec, step);
      && (u.Nothing? <==> step.uses == "")
      && (u.NoDep? <==> IsDepRef(step.uses) && step.uses[|"deps."|..] !in spec.deps)
      && (forall sub :: u == Sub(sub) <==> NamesFile(w, path, spec, step.uses, sub) && w.found(sub))
      && (forall sub :: u == NoFile(sub) <==> NamesFile(w, path, spec, step.uses, sub) && !w.found(sub))
      && (StepRaises(w, path, spec, step) <==> HandlerRaises(w, path, step) || u.UseRaises?)
  {
    assert IsDepRef(step.uses) <==> "deps." <= step.uses && |step.uses| > 5;
  }

  lemma {:induction false} StepFaultsExact(w: World, path: Path, spec: Spec, step: Step, f: Fault)
    ensures f in HandlerFaults(w, path, step) + UseFaults(w, path, spec, step) <==>
      IsStepFault(w, path, spec, step, f)
    ensures Unique(HandlerFaults(w, path, step) + UseFaults(w, path, spec, step))
  {
    UseOfExact(w, path, spec, step);
    hide UseOf, NamesFile, IsDepRef;
  }

  lemma {:induction false} StepsFaultsExact(w: World, path: Path, spec: Spec, steps: seq<Step>, f: Fault)
    ensures f in StepsFaults(w, path, spec, steps) <==>
      exists k | 0 <= k < |steps| :: IsStepFault(w, path, spec, steps[k], f)
    decreases steps
  {
    if steps != [] {
      StepFaultsExact(w, path, spec, steps[0], f);
      StepsFaultsExact(w, path, spec, steps[1..], f);
      hide IsStepFault, HandlerFaults, UseFaults;
      assert forall k | 0 < k < |steps| :: steps[k] == steps[1..][k - 1];
      assert forall k | 0 <= k < |steps| - 1 :: steps[1..][k] == steps[k + 1];
    }
  }

  /** The faults that are reported of a spec are what is wrong with it. */
  lemma {:induction false} FaultsExact(w: World, path: Path, f: Fault)
    ensures f in FaultsAt(w, path) <==> IsFault(w, path, f)
  {
    match w.load(path)
    case Loaded(spec) => StepsFaultsExact(w, path, spec, spec.steps, f);
    case _ =>
  }

  lemma {:induction false} StepUses(w: World, path: Path, spec: Spec, k: nat, sub: Path)
    requires w.load(path) == Loaded(spec) && k < |spec.steps| && UseOf(w, path, spec, spec.steps[k]) == Sub(sub)
    ensures Uses(w, path, sub)
  {
    UseOfExact(w, path, spec, spec.steps[k]);
  }

  lemma {:induction false} UsedBy(w: World, path: Path, sub: Path) returns (k: nat)
    requires Uses(w, path, sub)
    ensures k < |w.load(path).spec.steps|
    ensures UseOf(w, path, w.load(path).spec, w.load(path).spec.steps[k]) == Sub(sub)
  {
    var spec := w.load(path).spec;
    k :| 0 <= k < |spec.steps| && NamesFile(w, path, spec, spec.steps[k].uses, sub);
    UseOfExact(w, path, spec, spec.steps[k]);
  }

  // ----- reachable specs

  ghost predicate Chain(w: World, chain: seq<Path>) {
    chain != [] && forall k | 0 < k < |chain| :: Uses(w, chain[k - 1], chain[k])
  }

  ghost predicate Reaches(w: World, start: Path, path: Path) {
    exists chain :: Chain(w, chain) && chain[0] == start && chain[|chain| - 1] == path
  }

  lemma {:induction false} ReachesSelf(w: World, p: Path)
    ensures Reaches(w, p, p)
  {
    assert Chain(w, [p]);
  }

  lemma {:induction false} ReachesFirst(w: World, p: Path, q: Path, r: Path)
    requires Uses(w, p, q) && Reaches(w, q, r)
    ensures Reaches(w, p, r)
  {
    var chain :| Chain(w, chain) && chain[0] == q && chain[|chain| - 1] == r;
    var longer := [p] + chain;
    assert forall k | 0 < k < |longer| :: longer[k] == chain[k - 1];
    assert forall k | 0 < k < |longer| :: Uses(w, longer[k - 1], longer[k]);
    assert Chain(w, longer) && longer[|longer| - 1] == r;
  }

  // ----- each spec once

  ghost predicate Once(w: World, s: State) {
    && (forall i, j | 0 <= i < j < |s.visited| :: w.resolve(s.visited[i]) != w.resolve(s.visited[j]))
    && (forall i | 0 <= i < |s.visited| :: w.resolve(s.visited[i]) in s.seen)
    && (forall r | r in s.seen :: exists i :: 0 <= i < |s.visited| && w.resolve(s.visited[i]) == r)
  }

  lemma {:induction false} OnceNext(w: World, s: State, path: Path)
    requires Once(w, s) && w.resolve(path) !in s.seen
    ensures Once(w, s.(seen := s.seen + {w.resolve(path)}, visited := s.visited + [path]))
  {
    var s1 := s.(seen := s.seen + {w.resolve(path)}, visited := s.visited + [path]);
    forall r | r in s1.seen
      ensures exists i :: 0 <= i < |s1.visited| && w.resolve(s1.visited[i]) == r
    {
      if r in s.seen {
        var i :| 0 <= i < |s.visited| && w.resolve(s.visited[i]) == r;
        assert s1.visited[i] == s.visited[i];
      } else {
        assert s1.visited[|s.visited|] == path;
      }
    }
  }

  lemma {:induction false} VisitOnce(w: World, path: Path, s: State)
    requires Finite(w) && w.found(path) && Once(w, s)
    ensures Once(w, Visit(w, path, s)) && w.resolve(path) in Visit(w, path, s).seen
    decreases w.files - s.seen, 0
  {
    if w.resolve(path) !in s.seen {
      OnceNext(w, s, path);
      var s1 := s.(seen := s.seen + {w.resolve(path)}, visited := s.visited + [path]);
      match w.load(path)
      case Loaded(spec) => StepsOnce(w, path, spec, spec.steps, s1);
      case _ =>
    }
  }

  lemma {:induction false} StepsOnce(w: World, path: Path, spec: Spec, steps: seq<Step>, s: State)
    requires Finite(w) && Once(w, s)
    ensures Once(w, VisitSteps(w, path, spec, steps, s))
    decreases w.files - s.seen, |steps| + 1
  {
    if steps != [] && !s.raised && !AfterHandler(w, path, steps[0], s).raised {
      var s1 := AfterHandler(w, path, steps[0], s);
      if UseOf(w, path, spec, steps[0]).Sub? { VisitOnce(w, UseOf(w, path, spec, steps[0]).path, s1); }
      StepsOnce(w, path, spec, steps[1..], VisitUse(w, path, spec, steps[0], s1));
    }
  }

  // ----- only reachable specs

  ghost predicate AllReached(w: World, start: Path, visited: seq<Path>) {
    forall i | 0 <= i < |visited| :: Reaches(w, start, visited[i]) && w.found(visited[i])
  }

  /** A walk adds specs reachable from where it starts. */
  lemma {:induction false} VisitReached(w: World, path: Path, s: State)
    requires Finite(w) && w.found(path)
    ensures s.visited <= Visit(w, path, s).visited
    ensures AllReached(w, path, Visit(w, path, s).visited[|s.visited|..])
    decreases w.files - s.seen, 0
  {
    if w.resolve(path) !in s.seen {
      var s1 := s.(seen := s.seen + {w.resolve(path)}, visited := s.visited + [path]);
      ReachesSelf(w, path);
      match w.load(path)
      case Loaded(spec) =>
        StepsReached(w, path, spec, 0, s1);
        assert spec.steps[0..] == spec.steps;
        var r := Visit(w, path, s).visited;
        assert r[|s.visited|..] == [path] + r[|s1.visited|..];
      case _ =>
    }
  }

  lemma {:induction false} StepsReached(w: World, path: Path, spec: Spec, k: nat, s: State)
    requires Finite(w) && w.load(path) == Loaded(spec) && k <= |spec.steps|
    ensures s.visited <= VisitSteps(w, path, spec, spec.steps[k..], s).visited
    ensures AllReached(w, path, VisitSteps(w, path, spec, spec.steps[k..], s).visited[|s.visited|..])
    decreases w.files - s.seen, |spec.steps| - k + 1
  {
    hide Reaches, Visit;
    if k < |spec.steps| && !s.raised && !AfterHandler(w, path, spec.steps[k], s).raised {
      var steps := spec.steps[k..];
      assert steps[0] == spec.steps[k] && steps[1..] == spec.steps[k + 1..];
      var s1 := AfterHandler(w, path, steps[0], s);
      var s2 := VisitUse(w, path, spec, steps[0], s1);
      if UseOf(w, path, spec, steps[0]).Sub? {
        var sub := UseOf(w, path, spec, steps[0]).path;
        VisitReached(w, sub, s1);
        StepUses(w, path, spec, k, sub);
        forall q | Reaches(w, sub, q) ensures Reaches(w, path, q) { ReachesFirst(w, path, sub, q); }
      }
      StepsReached(w, path, spec, k + 1, s2);
      var r := VisitSteps(w, path, spec, steps, s).visited;
      assert r[|s.visited|..] == s2.visited[|s.visited|..] + r[|s2.visited|..];
    }
  }

  // ----- every fault once

  function AllFaults(w: World, visited: seq<Path>): multiset<Fault> {
    if visited == [] then multiset{} else multiset(FaultsAt(w, visited[0])) + AllFaults(w, visited[1..])
  }

  lemma {:induction false} AllFaultsConcat(w: World, a: seq<Path>, b: seq<Path>)
    ensures AllFaults(w, a + b) == AllFaults(w, a) + AllFaults(w, b)
  {
    if a == [] {
      assert a + b == b;
    } else {
      assert (a + b)[1..] == a[1..] + b;
      AllFaultsConcat(w, a[1..], b);
    }
  }

  function Codes(steps: seq<Step>): nat {
    if steps == [] then 0 else (if IsCode(steps[0]) then 1 else 0) + Codes(steps[1..])
  }

  function AllCodes(w: World, visited: seq<Path>): nat {
    if visited == [] then 0
    else (if w.load(visited[0]).Loaded? then Codes(w.load(visited[0]).spec.steps) else 0) + AllCodes(w, visited[1..])
  }

  lemma {:induction false} AllCodesConcat(w: World, a: seq<Path>, b: seq<Path>)
    ensures AllCodes(w, a + b) == AllCodes(w, a) + AllCodes(w, b)
  {
    if a == [] {
      assert a + b == b;
    } else {
      assert (a + b)[1..] == a[1..] + b;
      AllCodesConcat(w, a[1..], b);
    }
  }

  /** The errors from state `s` to state `r` are `own` and the faults of the specs visited in between, and each
      code handler of those has been counted. */
  ghost predicate Accounted(w: World, s: State, r: State, own: seq<Fault>, codes: nat) {
    && s.visited <= r.visited
    && multiset(r.errors) == multiset(s.errors) + multiset(own) + AllFaults(w, r.visited[|s.visited|..])
    && r.checked == s.checked + codes + AllCodes(w, r.visited[|s.visited|..])
  }

  lemma {:induction false} AccountedThen(w: World, s: State, r: State, t: State, own: seq<Fault>, own': seq<Fault>,
                                         codes: nat, codes': nat)
    requires Accounted(w, s, r, own, codes) && Accounted(w, r, t, own', codes')
    ensures Accounted(w, s, t, own + own', codes + codes')
  {
    var a, b := r.visited[|s.visited|..], t.visited[|r.visited|..];
    assert t.visited[|s.visited|..] == a + b;
    AllFaultsConcat(w, a, b);
    AllCodesConcat(w, a, b);
    assert multiset(own + own') == multiset(own) + multiset(own');
  }

  /** A step of the state that visits no spec. */
  lemma {:induction false} AccountedHere(w: World, s: State, r: State, own: seq<Fault>, codes: nat)
    requires r.visited == s.visited && r.errors == s.errors + own && r.checked == s.checked + codes
    ensures Accounted(w, s, r, own, codes)
  {
    assert r.visited[|s.visited|..] == [];
    assert multiset(s.errors + own) == multiset(s.errors) + multiset(own);
  }

  lemma {:induction false} VisitAccounts(w: World, path: Path, s: State)
    requires Finite(w) && w.found(path)
    ensures !Visit(w, path, s).raised ==> Accounted(w, s, Visit(w, path, s), [], 0)
    decreases w.files - s.seen, 0
  {
    hide Accounted;
    var r := Visit(w, path, s);
    if w.resolve(path) in s.seen {
      AccountedHere(w, s, s, [], 0);
    } else if !r.raised {
      var s1 := s.(seen := s.seen + {w.resolve(path)}, visited := s.visited + [path]);
      match w.load(path)
      case Invalid =>
        AccountedHere(w, s1, r, [InvalidSpec(path)], 0);
        AccountedVisit(w, path, s, s1, r, 0);
      case Loaded(spec) =>
        StepsAccount(w, path, spec, spec.steps, s1);
        AccountedVisit(w, path, s, s1, r, Codes(spec.steps));
      case _ =>
    }
  }

  lemma {:induction false} AccountedVisit(w: World, path: Path, s: State, s1: State, r: State, codes: nat)
    requires s1.visited == s.visited + [path] && s1.errors == s.errors && s1.checked == s.checked
    requires Accounted(w, s1, r, FaultsAt(w, path), codes)
    requires codes == if w.load(path).Loaded? then Codes(w.load(path).spec.steps) else 0
    ensures Accounted(w, s, r, [], 0)
  {
    assert r.visited[|s.visited|..] == [path] + r.visited[|s1.visited|..];
  }

  lemma {:induction false} StepsAccount(w: World, path: Path, spec: Spec, steps: seq<Step>, s: State)
    requires Finite(w)
    ensures var r := VisitSteps(w, path, spec, steps, s);
      !r.raised ==> Accounted(w, s, r, StepsFaults(w, path, spec, steps), Codes(steps))
    decreases w.files - s.seen, |steps| + 1
  {
    hide Accounted, VisitUse, HandlerFaults, UseFaults;
    var r := VisitSteps(w, path, spec, steps, s);
    if r.raised {
    } else if steps == [] {
      AccountedHere(w, s, s, [], 0);
    } else {
      var s1 := AfterHandler(w, path, steps[0], s);
      var s2 := VisitUse(w, path, spec, steps[0], s1);
      var one := if IsCode(steps[0]) then 1 else 0;
      AccountedHere(w, s, s1, HandlerFaults(w, path, steps[0]), one);
      StepsAccount(w, path, spec, steps[1..], s2);
      UseAccounts(w, path, spec, steps[0], s1);
      AccountedThen(w, s, s1, s2, HandlerFaults(w, path, steps[0]), UseFaults(w, path, spec, steps[0]), one, 0);
      AccountedThen(w, s, s2, r, HandlerFaults(w, path, steps[0]) + UseFaults(w, path, spec, steps[0]),
                    StepsFaults(w, path, spec, steps[1..]), one, Codes(steps[1..]));
    }
  }

  lemma {:induction false} UseAccounts(w: World, path: Path, spec: Spec, step: Step, s: State)
    requires Finite(w)
    ensures var r := VisitUse(w, path, spec, step, s);
      !r.raised ==> Accounted(w, s, r, UseFaults(w, path, spec, step), 0)
    decreases w.files - s.seen, 1
  {
    hide Accounted, Visit;
    if UseOf(w, path, spec, step).Sub? {
      VisitAccounts(w, UseOf(w, path, spec, step).path, s);
    } else {
      AccountedHere(w, s, VisitUse(w, path, spec, step, s), UseFaults(w, path, spec, step), 0);
    }
  }

  // ----- every used spec

  ghost predicate StepDone(w: World, path: Path, spec: Spec, step: Step, seen: set<Path>) {
    && !HandlerRaises(w, path, step) && !UseOf(w, path, spec, step).UseRaises?
    && (UseOf(w, path, spec, step).Sub? ==> w.resolve(UseOf(w, path, spec, step).path) in seen)
  }

  ghost predicate Done(w: World, path: Path, seen: set<Path>) {
    match w.load(path)
    case Loaded(spec) => forall k | 0 <= k < |spec.steps| :: StepDone(w, path, spec, spec.steps[k], seen)
    case Invalid => true
    case LoadRaises => false
  }

  ghost predicate AllDone(w: World, visited: seq<Path>, from: nat, seen: set<Path>) {
    forall i | from <= i < |visited| :: Done(w, visited[i], seen)
  }

  lemma {:induction false} VisitDone(w: World, path: Path, s: State)
    requires Finite(w) && w.found(path)
    ensures var r := Visit(w, path, s);
      s.visited <= r.visited && (!r.raised ==> w.resolve(path) in r.seen && AllDone(w, r.visited, |s.visited|, r.seen))
    decreases w.files - s.seen, 0
  {
    if w.resolve(path) !in s.seen {
      var s1 := s.(seen := s.seen + {w.resolve(path)}, visited := s.visited + [path]);
      match w.load(path)
      case Loaded(spec) => StepsDone(w, path, spec, spec.steps, s1);
      case _ =>
    }
  }

  lemma {:induction false} StepsDone(w: World, path: Path, spec: Spec, steps: seq<Step>, s: State)
    requires Finite(w)
    ensures var r := VisitSteps(w, path, spec, steps, s);
      && s.visited <= r.visited
      && (!r.raised ==>
            && AllDone(w, r.visited, |s.visited|, r.seen)
            && forall k | 0 <= k < |steps| :: StepDone(w, path, spec, steps[k], r.seen))
    decreases w.files - s.seen, |steps| + 1
  {
    hide Visit, Done;
    if steps != [] && !s.raised && !AfterHandler(w, path, steps[0], s).raised {
      var s1 := AfterHandler(w, path, steps[0], s);
      var s2 := VisitUse(w, path, spec, steps[0], s1);
      var r := VisitSteps(w, path, spec, steps, s);
      if UseOf(w, path, spec, steps[0]).Sub? { VisitDone(w, UseOf(w, path, spec, steps[0]).path, s1); }
      StepsDone(w, path, spec, steps[1..], s2);
      if !r.raised {
        assert !s2.raised;
        DoneGrows(w, s2.visited, |s.visited|, s2.seen, r.seen);
        forall i | |s.visited| <= i < |r.visited| ensures Done(w, r.visited[i], r.seen) {
          if i < |s2.visited| { assert r.visited[i] == s2.visited[i]; }
        }
        forall k | 0 <= k < |steps| ensures StepDone(w, path, spec, steps[k], r.seen) {
          if k > 0 { assert steps[k] == steps[1..][k - 1]; }
        }
      }
    }
  }

  lemma {:induction false} DoneGrows(w: World, visited: seq<Path>, from: nat, seen: set<Path>, seen': set<Path>)
    requires AllDone(w, visited, from, seen) && seen <= seen'
    ensures AllDone(w, visited, from, seen')
  {
  }
}
