/** The check of all code handlers of a process tree (src/metaproc/commands/check_handlers.py): a walk over specs
    that may use one another in cycles.  A spec is skipped when its resolved path was seen, but its handlers and its
    `uses:` are found from the path it was reached by. */
module HandlerCheck {

  type Path = string

  datatype Step = Step(id: string, mode: string, handler: string, uses: string)
  datatype Spec = Spec(steps: seq<Step>, deps: map<string, string>)

  /** `Raises` stands for an exception that the walk does not catch. */
  datatype Loaded = Loaded(spec: Spec) | Invalid | LoadRaises
  datatype Verdict = Resolves | Fails | Raises
  datatype Place = At(path: Path) | PlaceRaises

  /** The file system and the modules, as the walk asks them. */
  datatype World = World(
    files: set<Path>,
    resolve: Path -> Path,
    parent: Path -> Path,
    join: (Path, string) -> Path,
    found: Path -> bool,
    load: Path -> Loaded,
    handler: (string, Path) -> Verdict,
    depPath: (string, Spec, Path) -> Place)

  /** There are finitely many files. */
  ghost predicate Finite(w: World) {
    forall p | w.found(p) :: w.resolve(p) in w.files
  }

  datatype Fault = InvalidSpec(path: Path) | BadHandler(path: Path, id: string) | UnknownDep(path: Path, id: string)
                 | Missing(path: Path, id: string, sub: Path)

  // ----- one step

  predicate IsCode(step: Step) {
    step.mode == "code" && step.handler != ""
  }

  /** What `uses:` comes to: nothing to do, a fault, an exception, or a spec to walk. */
  datatype Use = Nothing | NoDep | NoFile(missing: Path) | UseRaises | Sub(path: Path)

  function UseOf(w: World, path: Path, spec: Spec, step: Step): (u: Use)
    ensures u.Sub? ==> w.found(u.path)
  {
    if step.uses == "" then Nothing
    else if "deps." <= step.uses && |step.uses| > 5 then
      if step.uses[5..] !in spec.deps then NoDep
      else
        match w.depPath(spec.deps[step.uses[5..]], spec, w.parent(path))
        case PlaceRaises => UseRaises
        case At(sub) => if w.found(sub) then Sub(sub) else NoFile(sub)
    else
      var sub := w.join(w.parent(path), step.uses);
      if w.found(sub) then Sub(sub) else NoFile(sub)
  }

  function HandlerFaults(w: World, path: Path, step: Step): seq<Fault> {
    if IsCode(step) && w.handler(step.handler, w.parent(path)).Fails? then [BadHandler(path, step.id)] else []
  }

  predicate HandlerRaises(w: World, path: Path, step: Step) {
    IsCode(step) && w.handler(step.handler, w.parent(path)).Raises?
  }

  function UseFaults(w: World, path: Path, spec: Spec, step: Step): seq<Fault> {
    match UseOf(w, path, spec, step)
    case NoDep => [UnknownDep(path, step.id)]
    case NoFile(sub) => [Missing(path, step.id, sub)]
    case _ => []
  }

  // ----- the walk

  datatype State = State(seen: set<Path>, errors: seq<Fault>, checked: nat, visited: seq<Path>, raised: bool)

  function Visit(w: World, path: Path, s: State): (r: State)
    requires Finite(w) && w.found(path)
    ensures s.seen <= r.seen
    decreases w.files - s.seen, 0
  {
    var resolved := w.resolve(path);
    if resolved in s.seen then s
    else
      var s1 := s.(seen := s.seen + {resolved}, visited := s.visited + [path]);
      match w.load(path)
      case LoadRaises => s1.(raised := true)
      case Invalid => s1.(errors := s1.errors + [InvalidSpec(path)])
      case Loaded(spec) => VisitSteps(w, path, spec, spec.steps, s1)
  }

  function AfterHandler(w: World, path: Path, step: Step, s: State): State {
    s.(checked := s.checked + if IsCode(step) then 1 else 0,
       errors := s.errors + HandlerFaults(w, path, step),
       raised := HandlerRaises(w, path, step))
  }

  function VisitSteps(w: World, path: Path, spec: Spec, steps: seq<Step>, s: State): (r: State)
    requires Finite(w)
    ensures s.seen <= r.seen
    decreases w.files - s.seen, |steps| + 1
  {
    if steps == [] || s.raised then s
    else
      var s1 := AfterHandler(w, path, steps[0], s);
      if s1.raised then s1
      else VisitSteps(w, path, spec, steps[1..], VisitUse(w, path, spec, steps[0], s1))
  }

  function VisitUse(w: World, path: Path, spec: Spec, step: Step, s: State): (r: State)
    requires Finite(w)
    ensures s.seen <= r.seen
    decreases w.files - s.seen, 1
  {
    match UseOf(w, path, spec, step)
    case Sub(sub) => Visit(w, sub, s)
    case UseRaises => s.(raised := true)
    case _ => s.(errors := s.errors + UseFaults(w, path, spec, step))
  }

  function Check(w: World, start: Path): State
    requires Finite(w) && w.found(start)
  {
    Visit(w, start, State({}, [], 0, [], false))
  }

  /** The command exits with success. */
  predicate Passes(s: State) {
    !s.raised && s.errors == []
  }

  class Walker {
    const world: World
    var seen: set<Path>
    var errors: seq<Fault>
    var checked: nat
    ghost var visited: seq<Path>

    ghost function Now(raised: bool): State
      reads this
    {
      State(seen, errors, checked, visited, raised)
    }

    constructor (w: World)
      ensures world == w && Now(false) == State({}, [], 0, [], false)
    {
      world, seen, errors, checked, visited := w, {}, [], 0, [];
    }

    method Walk(path: Path) returns (raised: bool)
      requires Finite(world) && world.found(path)
      modifies this
      ensures Now(raised) == Visit(world, path, old(Now(false)))
      decreases world.files - seen, 0
    {
      var resolved := world.resolve(path);
      if resolved in seen { return false; }
      seen := seen + {resolved};
      visited := visited + [path];
      match world.load(path)
      case LoadRaises => return true;
      case Invalid =>
        errors := errors + [InvalidSpec(path)];
        return false;
      case Loaded(spec) =>
        raised := WalkSteps(path, spec);
    }

    /** The loop over the steps of a spec. */
    method WalkSteps(path: Path, spec: Spec) returns (raised: bool)
      requires Finite(world)
      modifies this
      ensures Now(raised) == VisitSteps(world, path, spec, spec.steps, old(Now(false)))
      decreases world.files - seen, 2
    {
      hide Visit, VisitUse;
      ghost var start := Now(false);
      for k := 0 to |spec.steps|
        invariant start.seen <= seen
        invariant VisitSteps(world, path, spec, spec.steps[k..], Now(false))
               == VisitSteps(world, path, spec, spec.steps, start)
      {
        assert spec.steps[k..][0] == spec.steps[k] && spec.steps[k..][1..] == spec.steps[k + 1..];
        raised := CheckHandler(path, spec.steps[k]);
        if raised { return; }
        raised := FollowUse(path, spec, spec.steps[k]);
        if raised { return; }
      }
      raised := false;
    }

    method CheckHandler(path: Path, step: Step) returns (raised: bool)
      modifies this
      ensures Now(raised) == AfterHandler(world, path, step, old(Now(false)))
    {
      if step.mode == "code" && step.handler != "" {
        checked := checked + 1;
        match world.handler(step.handler, world.parent(path))
        case Raises => return true;
        case Fails => errors := errors + [BadHandler(path, step.id)];
        case Resolves =>
      }
      raised := false;
    }

    method FollowUse(path: Path, spec: Spec, step: Step) returns (raised: bool)
      requires Finite(world)
      modifies this
      ensures Now(raised) == VisitUse(world, path, spec, step, old(Now(false)))
      decreases world.files - seen, 1
    {
      raised := false;
      match UseOf(world, path, spec, step)
      case Nothing =>
      case NoDep => errors := errors + [UnknownDep(path, step.id)];
      case UseRaises => raised := true;
      case NoFile(sub) => errors := errors + [Missing(path, step.id, sub)];
      case Sub(sub) => raised := Walk(sub);
    }
  }
}
