/** The projection of tasks and recorded outputs (src/metaproc/runtime_projection.py): every declared
    task is reported once, as a task or as a gap, and every recorded output once, accepted or not. */
module OutputProjection {
  import opened Common
  import opened PurePaths
  import opened PathRebasing

  // ----- recorded outputs

  datatype Reason =
    | TaskNotSuccessful
    | ResultNotValidated
    | LegacyUnboundResult
    | AttemptMismatch
    | LegacyUnboundStep
    | StepMismatch
    | Undeclared
    | OutsideRun
    | MissingFile
    | KindMismatch

  datatype ResultBinding = NoResult | ExactAttempt | LegacyAttempt | OtherAttempt
  datatype StepBinding = NoStep | ExactStep | LegacyStep | OtherStep

  /** A recorded result; an attempt id or a step hash that is not recorded is `None` or empty. */
  datatype Result = Result(validated: bool, state: string, attemptId: Option<string>, stepHash: string,
                           outputs: seq<(string, string)>)

  datatype Status = Status(state: string, attemptId: Option<string>)

  const ACCEPTED_STATES: set<string> := {"completed", "cached"}

  /** `_result_binding`. */
  function BindResult(status: Status, result: Option<Result>): ResultBinding {
    if result.None? then NoResult
    else if result.value.attemptId.None? then LegacyAttempt
    else if result.value.attemptId != status.attemptId then OtherAttempt
    else ExactAttempt
  }

  /** `_step_binding`. */
  function BindStep(result: Option<Result>, currentHash: string): StepBinding {
    if result.None? then NoStep
    else if result.value.stepHash == "" then LegacyStep
    else if result.value.stepHash != currentHash then OtherStep
    else ExactStep
  }

  /** What the file system says about a path inside the run; `artifact` is the stored form of a file,
      with its place, whether it resolves inside the root, and whether it is a regular file. */
  datatype Facts = Facts(present: bool, isDir: bool, artifact: Option<Artifact>)
  datatype Artifact = Artifact(path: Path, resolvesInside: bool, isFile: bool)

  datatype Declaration = Directory | File

  /** `_available_output_path`. */
  function Available(path: Path, decl: Declaration, facts: Facts): (Path, Option<Reason>) {
    if decl.Directory? then
      if !facts.present then (path, Some(MissingFile))
      else if !facts.isDir then (path, Some(KindMismatch))
      else (path, None)
    else if facts.present && facts.isDir then (path, Some(KindMismatch))
    else if facts.artifact.None? then (path, Some(MissingFile))
    else if !facts.artifact.value.resolvesInside then (path, Some(OutsideRun))
    else if !facts.artifact.value.isFile then (facts.artifact.value.path, Some(KindMismatch))
    else (facts.artifact.value.path, None)
  }

  /** What the projection of a task's outputs depends on besides the outputs. */
  datatype Context = Context(status: Status, result: Result, stepHash: string,
                             declarations: map<string, Declaration>,
                             rebase: string -> Rebased, facts: Path -> Facts)

  datatype AcceptedOutput = AcceptedOutput(name: string, path: Path, recorded: string)
  datatype UnacceptedOutput = UnacceptedOutput(name: string, recorded: string, reason: Reason)

  // ----- when an output is accepted

  /** The conditions on the task, in the order in which the first failure is reported. */
  ghost predicate TaskFails(c: Context, reason: Reason) {
    match reason
    case TaskNotSuccessful => c.status.state !in {"completed", "cached"}
    case ResultNotValidated => !c.result.validated || c.result.state !in {"completed", "cached"}
    case LegacyUnboundResult => c.result.attemptId.None?
    case AttemptMismatch => c.result.attemptId.Some? && c.result.attemptId != c.status.attemptId
    case LegacyUnboundStep => c.result.stepHash == ""
    case StepMismatch => c.result.stepHash != "" && c.result.stepHash != c.stepHash
    case _ => false
  }

  function Rank(reason: Reason): nat {
    match reason
    case TaskNotSuccessful => 0
    case ResultNotValidated => 1
    case LegacyUnboundResult => 2
    case AttemptMismatch => 3
    case LegacyUnboundStep => 4
    case StepMismatch => 5
    case _ => 6
  }

  ghost predicate TaskSound(c: Context) {
    && c.status.state in {"completed", "cached"} && c.result.validated && c.result.state in {"completed", "cached"}
    && c.result.attemptId.Some? && c.result.attemptId == c.status.attemptId
    && c.result.stepHash != "" && c.result.stepHash == c.stepHash
  }

  /** The output is declared, lies inside the run, and is there as the declared kind. */
  ghost predicate OutputSound(c: Context, name: string, recorded: string, path: Path) {
    && name in c.declarations && c.rebase(recorded).Inside?
    && var place := c.rebase(recorded).path;
       var facts := c.facts(place);
       if c.declarations[name].Directory? then facts.present && facts.isDir && path == place
       else !(facts.present && facts.isDir) && facts.artifact.Some?
            && facts.artifact.value == Artifact(path, true, true)
  }

  /** Why an output is not accepted, when the task is sound. */
  ghost predicate OutputFails(c: Context, name: string, recorded: string, reason: Reason) {
    if name !in c.declarations then reason == Undeclared
    else if !c.rebase(recorded).Inside? then reason == OutsideRun
    else
      var facts := c.facts(c.rebase(recorded).path);
      if c.declarations[name].Directory? then
        || (reason == MissingFile && !facts.present)
        || (reason == KindMismatch && facts.present && !facts.isDir)
      else
        || (reason == KindMismatch && facts.present && facts.isDir)
        || (!(facts.present && facts.isDir)
            && match facts.artifact
               case None => reason == MissingFile
               case Some(stored) =>
                 if stored.resolvesInside then reason == KindMismatch && !stored.isFile else reason == OutsideRun)
  }

  ghost predicate Justified(c: Context, u: UnacceptedOutput) {
    if TaskSound(c) then OutputFails(c, u.name, u.recorded, u.reason)
    else TaskFails(c, u.reason) && forall r | Rank(r) < Rank(u.reason) :: !TaskFails(c, r)
  }

  function AcceptedPairs(accepted: seq<AcceptedOutput>): seq<(string, string)> {
    if accepted == [] then [] else [(accepted[0].name, accepted[0].recorded)] + AcceptedPairs(accepted[1..])
  }

  function UnacceptedPairs(unaccepted: seq<UnacceptedOutput>): seq<(string, string)> {
    if unaccepted == [] then [] else [(unaccepted[0].name, unaccepted[0].recorded)] + UnacceptedPairs(unaccepted[1..])
  }

  lemma {:induction false} AcceptedSnoc(accepted: seq<AcceptedOutput>, a: AcceptedOutput)
    ensures AcceptedPairs(accepted + [a]) == AcceptedPairs(accepted) + [(a.name, a.recorded)]
    decreases accepted
  {
    if accepted != [] {
      AcceptedSnoc(accepted[1..], a);
      assert (accepted + [a])[1..] == accepted[1..] + [a];
    } else {
      assert [a][1..] == [];
    }
  }

  lemma {:induction false} UnacceptedSnoc(unaccepted: seq<UnacceptedOutput>, u: UnacceptedOutput)
    ensures UnacceptedPairs(unaccepted + [u]) == UnacceptedPairs(unaccepted) + [(u.name, u.recorded)]
    decreases unaccepted
  {
    if unaccepted != [] {
      UnacceptedSnoc(unaccepted[1..], u);
      assert (unaccepted + [u])[1..] == unaccepted[1..] + [u];
    } else {
      assert [u][1..] == [];
    }
  }

  /** The checks for one output; `path` is where an output without a reason is available. */
  method JudgeOutput(c: Context, name: string, recorded: string) returns (reason: Option<Reason>, path: Path)
    requires !c.rebase(recorded).EmptyPath?
    ensures reason.None? ==> TaskSound(c) && OutputSound(c, name, recorded, path)
    ensures reason.Some? ==> Justified(c, UnacceptedOutput(name, recorded, reason.value))
  {
    var binding := BindResult(c.status, Some(c.result));
    var stepBinding := BindStep(Some(c.result), c.stepHash);
    reason := None;
    if c.status.state !in ACCEPTED_STATES {
      reason := Some(TaskNotSuccessful);
    } else if !c.result.validated || c.result.state !in ACCEPTED_STATES {
      reason := Some(ResultNotValidated);
    } else if binding.LegacyAttempt? {
      reason := Some(LegacyUnboundResult);
    } else if binding.OtherAttempt? {
      reason := Some(AttemptMismatch);
    } else if stepBinding.LegacyStep? {
      reason := Some(LegacyUnboundStep);
    } else if stepBinding.OtherStep? {
      reason := Some(StepMismatch);
    } else if name !in c.declarations {
      reason := Some(Undeclared);
    }
    var portable := c.rebase(recorded);
    path := if portable.Inside? then portable.path else Path(false, []);
    if reason.None? && !portable.Inside? {
      reason := Some(OutsideRun);
    }
    if reason.None? {
      var (available, unavailable) := Available(portable.path, c.declarations[name], c.facts(portable.path));
      path, reason := available, unavailable;
    }
  }

  /** The first `k` outputs are distributed over the two lists, each with good reason. */
  ghost predicate Distributed(c: Context, k: nat, accepted: seq<AcceptedOutput>, unaccepted: seq<UnacceptedOutput>)
    requires k <= |c.result.outputs|
  {
    && multiset(AcceptedPairs(accepted)) + multiset(UnacceptedPairs(unaccepted)) == multiset(c.result.outputs[..k])
    && (accepted != [] ==> TaskSound(c))
    && (forall i | 0 <= i < |accepted| :: OutputSound(c, accepted[i].name, accepted[i].recorded, accepted[i].path))
    && (forall i | 0 <= i < |unaccepted| :: Justified(c, unaccepted[i]))
  }

  lemma {:induction false} DistributedNone(c: Context)
    ensures Distributed(c, 0, [], [])
  {
    assert c.result.outputs[..0] == [];
  }

  lemma {:induction false} DistributeAccepted(c: Context, k: nat, accepted: seq<AcceptedOutput>,
                                              unaccepted: seq<UnacceptedOutput>, a: AcceptedOutput)
    requires k < |c.result.outputs| && (a.name, a.recorded) == c.result.outputs[k]
    requires Distributed(c, k, accepted, unaccepted) && TaskSound(c) && OutputSound(c, a.name, a.recorded, a.path)
    ensures Distributed(c, k + 1, accepted + [a], unaccepted)
  {
    hide TaskSound, OutputSound, Justified, AcceptedPairs, UnacceptedPairs;
    AcceptedSnoc(accepted, a);
    assert c.result.outputs[..k + 1] == c.result.outputs[..k] + [c.result.outputs[k]];
  }

  lemma {:induction false} DistributeUnaccepted(c: Context, k: nat, accepted: seq<AcceptedOutput>,
                                                unaccepted: seq<UnacceptedOutput>, u: UnacceptedOutput)
    requires k < |c.result.outputs| && (u.name, u.recorded) == c.result.outputs[k]
    requires Distributed(c, k, accepted, unaccepted) && Justified(c, u)
    ensures Distributed(c, k + 1, accepted, unaccepted + [u])
  {
    hide AcceptedPairs, UnacceptedPairs;
    UnacceptedSnoc(unaccepted, u);
    var pair, more := c.result.outputs[k], unaccepted + [u];
    assert c.result.outputs[..k + 1] == c.result.outputs[..k] + [pair];
    assert multiset(UnacceptedPairs(more)) == multiset(UnacceptedPairs(unaccepted)) + multiset{pair};
    assert multiset(c.result.outputs[..k + 1]) == multiset(c.result.outputs[..k]) + multiset{pair};
    assert multiset(AcceptedPairs(accepted)) + multiset(UnacceptedPairs(more)) == multiset(c.result.outputs[..k + 1]);
  }

  /** `_project_outputs` for a task with a result.  It raises if and only if a recorded path is empty.
      Otherwise each recorded output lands in exactly one of the two lists; it is accepted if and only if
      every check passes, and else carries the reason of the first check that fails: the fallback
      reason is never needed. */
  method ProjectOutputs(c: Context)
      returns (raised: bool, accepted: seq<AcceptedOutput>, unaccepted: seq<UnacceptedOutput>)
    ensures raised <==> exists k | 0 <= k < |c.result.outputs| :: c.rebase(c.result.outputs[k].1).EmptyPath?
    ensures !raised ==> Distributed(c, |c.result.outputs|, accepted, unaccepted)
  {
    raised, accepted, unaccepted := false, [], [];
    DistributedNone(c);
    hide *;
    for k := 0 to |c.result.outputs|
      invariant Distributed(c, k, accepted, unaccepted)
      invariant forall i | 0 <= i < k :: !c.rebase(c.result.outputs[i].1).EmptyPath?
    {
      var (name, recorded) := c.result.outputs[k];
      if c.rebase(recorded).EmptyPath? {
        return true, accepted, unaccepted;
      }
      var reason, path := JudgeOutput(c, name, recorded);
      if reason.None? {
        DistributeAccepted(c, k, accepted, unaccepted, AcceptedOutput(name, path, recorded));
        accepted := accepted + [AcceptedOutput(name, path, recorded)];
      } else {
        DistributeUnaccepted(c, k, accepted, unaccepted, UnacceptedOutput(name, recorded, reason.value));
        unaccepted := unaccepted + [UnacceptedOutput(name, recorded, reason.value)];
      }
    }
  }

  lemma {:induction false} AcceptedPair(accepted: seq<AcceptedOutput>, pair: (string, string))
    requires pair in AcceptedPairs(accepted)
    ensures exists k | 0 <= k < |accepted| :: (accepted[k].name, accepted[k].recorded) == pair
    decreases accepted
  {
    if (accepted[0].name, accepted[0].recorded) != pair {
      AcceptedPair(accepted[1..], pair);
      var k :| 0 <= k < |accepted[1..]| && (accepted[1..][k].name, accepted[1..][k].recorded) == pair;
      assert (accepted[k + 1].name, accepted[k + 1].recorded) == pair;
    }
  }

  lemma {:induction false} UnacceptedPair(unaccepted: seq<UnacceptedOutput>, pair: (string, string))
    requires pair in UnacceptedPairs(unaccepted)
    ensures exists k | 0 <= k < |unaccepted| :: (unaccepted[k].name, unaccepted[k].recorded) == pair
    decreases unaccepted
  {
    if (unaccepted[0].name, unaccepted[0].recorded) != pair {
      UnacceptedPair(unaccepted[1..], pair);
      var k :| 0 <= k < |unaccepted[1..]| && (unaccepted[1..][k].name, unaccepted[1..][k].recorded) == pair;
      assert (unaccepted[k + 1].name, unaccepted[k + 1].recorded) == pair;
    }
  }

  /** A recorded output is among the accepted ones if and only if every check passes, and then it is not
      among the others. */
  lemma {:induction false} AcceptedExactly(c: Context, accepted: seq<AcceptedOutput>,
                                           unaccepted: seq<UnacceptedOutput>, pair: (string, string))
    requires Distributed(c, |c.result.outputs|, accepted, unaccepted) && pair in c.result.outputs
    ensures pair in AcceptedPairs(accepted)
            <==> TaskSound(c) && exists path :: OutputSound(c, pair.0, pair.1, path)
    ensures pair in AcceptedPairs(accepted) <==> pair !in UnacceptedPairs(unaccepted)
  {
    assert c.result.outputs[..|c.result.outputs|] == c.result.outputs;
    assert pair in multiset(AcceptedPairs(accepted)) + multiset(UnacceptedPairs(unaccepted));
    if pair in AcceptedPairs(accepted) {
      AcceptedPair(accepted, pair);
      var k :| 0 <= k < |accepted| && (accepted[k].name, accepted[k].recorded) == pair;
      assert OutputSound(c, pair.0, pair.1, accepted[k].path);
    }
    if pair in UnacceptedPairs(unaccepted) {
      UnacceptedPair(unaccepted, pair);
      var k :| 0 <= k < |unaccepted| && (unaccepted[k].name, unaccepted[k].recorded) == pair;
      assert Justified(c, unaccepted[k]);
    }
  }

  // ----- on the disk

  /** The file system: what paths resolve to, and what is at them.  `artifact` is where the stored form of a file is. */
  datatype Disk = Disk(resolve: Resolver, present: Path -> bool, isDir: Path -> bool, isFile: Path -> bool,
                       artifact: Path -> Option<Path>)

  /** Where a run is now, and where it was when its outputs were recorded. */
  datatype RunPlace = RunPlace(current: Path, original: Path, disk: Disk)

  function RebaseIn(run: RunPlace, recorded: string): (r: Rebased)
    ensures r.EmptyPath? <==> recorded == ""
  {
    RebaseWith(ParsePath(recorded), recorded == "", run.current, run.original, run.disk.resolve)
  }

  function FactsIn(run: RunPlace, path: Path): Facts {
    Facts(run.disk.present(path), run.disk.isDir(path),
          match run.disk.artifact(path)
          case None => None
          case Some(stored) =>
            Some(Artifact(stored, Contains(run.current, run.disk.resolve(stored)), run.disk.isFile(stored))))
  }

  /** `_project_outputs` of a task of a run. */
  function InRun(run: RunPlace, status: Status, result: Result, stepHash: string,
                 declarations: map<string, Declaration>): Context {
    Context(status, result, stepHash, declarations, recorded => RebaseIn(run, recorded), path => FactsIn(run, path))
  }

  ghost predicate OfRun(c: Context, run: RunPlace) {
    c == InRun(run, c.status, c.result, c.stepHash, c.declarations)
  }

  /** The recorded path is that of a directory, or of a file in its stored form, inside the current root. */
  ghost predicate Lands(run: RunPlace, decl: Declaration, recorded: string) {
    RebaseIn(run, recorded).Inside?
    && var place := RebaseIn(run, recorded).path;
       if decl.Directory? then run.disk.present(place) && run.disk.isDir(place)
       else
         && !(run.disk.present(place) && run.disk.isDir(place)) && run.disk.artifact(place).Some?
         && var stored := run.disk.artifact(place).value;
            Contains(run.current, run.disk.resolve(stored)) && run.disk.isFile(stored)
  }

  /** Whatever the symlinks, each accepted output is at a path that resolves inside the current root, and exactly the
      recorded outputs of a sound task that are declared and land there are accepted. */
  lemma {:induction false} AcceptedInside(run: RunPlace, c: Context, accepted: seq<AcceptedOutput>,
                                          unaccepted: seq<UnacceptedOutput>)
    requires OfRun(c, run) && Distributed(c, |c.result.outputs|, accepted, unaccepted)
    ensures forall k | 0 <= k < |accepted| :: Contains(run.current, run.disk.resolve(accepted[k].path))
    ensures forall pair | pair in c.result.outputs ::
      pair in AcceptedPairs(accepted) <==>
        TaskSound(c) && pair.0 in c.declarations && Lands(run, c.declarations[pair.0], pair.1)
  {
    hide AcceptedPairs, UnacceptedPairs, TaskSound;
    forall k | 0 <= k < |accepted| ensures Contains(run.current, run.disk.resolve(accepted[k].path)) {
      SoundLands(run, c, accepted[k].name, accepted[k].recorded);
      assert OutputSound(c, accepted[k].name, accepted[k].recorded, accepted[k].path);
    }
    forall pair | pair in c.result.outputs
      ensures pair in AcceptedPairs(accepted) <==>
        TaskSound(c) && pair.0 in c.declarations && Lands(run, c.declarations[pair.0], pair.1)
    {
      AcceptedExactly(c, accepted, unaccepted, pair);
      SoundLands(run, c, pair.0, pair.1);
    }
  }

  lemma {:induction false} SoundLands(run: RunPlace, c: Context, name: string, recorded: string)
    requires OfRun(c, run)
    ensures forall path | OutputSound(c, name, recorded, path) :: Contains(run.current, run.disk.resolve(path))
    ensures (exists path :: OutputSound(c, name, recorded, path)) <==>
      name in c.declarations && Lands(run, c.declarations[name], recorded)
  {
    var r := RebaseIn(run, recorded);
    assert c.rebase(recorded) == r;
    if r.Inside? {
      assert c.facts(r.path) == FactsIn(run, r.path);
      assert Contains(run.current, run.disk.resolve(r.path));
      if name in c.declarations && Lands(run, c.declarations[name], recorded) {
        var path := if c.declarations[name].Directory? then r.path else run.disk.artifact(r.path).value;
        assert OutputSound(c, name, recorded, path);
      }
    }
  }

  // ----- declared tasks

  /** A task of a scope: its step and its item key, if the step is mapped. */
  datatype TaskKey = TaskKey(step: string, item: Option<string>)

  /** A recorded plan: item keys are exact, and those of a mapped step are listed in sorted order. */
  datatype RecordedStep = RecordedStep(id: string, composite: bool, mapped: bool, keys: seq<string>)

  /** What the scan finds for a task: no readable status, a task, or a reason to raise. */
  datatype TaskState = Unrecorded | Recorded | Inconsistent

  /** A scalar composite step is a scope and no task. */
  function TasksOf(step: RecordedStep): seq<TaskKey> {
    if !step.mapped then (if step.composite then [] else [TaskKey(step.id, None)])
    else KeyedTasks(step.id, step.keys)
  }

  function KeyedTasks(id: string, keys: seq<string>): (r: seq<TaskKey>)
    ensures |r| == |keys| && forall k | 0 <= k < |r| :: r[k] == TaskKey(id, Some(keys[k]))
  {
    if keys == [] then [] else [TaskKey(id, Some(keys[0]))] + KeyedTasks(id, keys[1..])
  }

  function DeclaredTasks(steps: seq<RecordedStep>): seq<TaskKey> {
    if steps == [] then [] else TasksOf(steps[0]) + DeclaredTasks(steps[1..])
  }

  /** What a plan declares: every item of a mapped step, and every scalar step that is not itself a scope. */
  ghost predicate IsTask(steps: seq<RecordedStep>, key: TaskKey) {
    exists i | 0 <= i < |steps| :: TaskOf(steps[i], key)
  }

  predicate TaskOf(step: RecordedStep, key: TaskKey) {
    step.id == key.step
    && if step.mapped then key.item.Some? && key.item.value in step.keys else !step.composite && key.item.None?
  }

  lemma {:induction false} TasksExact(step: RecordedStep, key: TaskKey)
    ensures key in TasksOf(step) <==> TaskOf(step, key)
  {
    if step.mapped && TaskOf(step, key) {
      var k :| 0 <= k < |step.keys| && step.keys[k] == key.item.value;
      assert TasksOf(step)[k] == key;
    }
  }

  lemma {:induction false} DeclaredTasksExact(steps: seq<RecordedStep>, key: TaskKey)
    ensures key in DeclaredTasks(steps) <==> IsTask(steps, key)
    decreases steps
  {
    if steps != [] {
      TasksExact(steps[0], key);
      DeclaredTasksExact(steps[1..], key);
      assert forall i | 0 < i < |steps| :: steps[i] == steps[1..][i - 1];
      assert forall i | 0 <= i < |steps| - 1 :: steps[1..][i] == steps[i + 1];
      assert IsTask(steps, key) <==> TaskOf(steps[0], key) || IsTask(steps[1..], key);
    }
  }

  /** The task loop of `scan_task_output_projection` for one scope; raising ends the scan. */
  method ScanTasks(keys: seq<TaskKey>, stateOf: TaskKey -> TaskState)
      returns (raised: bool, tasks: seq<TaskKey>, gaps: seq<TaskKey>)
    ensures raised <==> exists k | 0 <= k < |keys| :: stateOf(keys[k]).Inconsistent?
    ensures !raised ==>
      && multiset(tasks) + multiset(gaps) == multiset(keys)
      && (forall k | 0 <= k < |tasks| :: stateOf(tasks[k]).Recorded?)
      && (forall k | 0 <= k < |gaps| :: stateOf(gaps[k]).Unrecorded?)
  {
    raised, tasks, gaps := false, [], [];
    for k := 0 to |keys|
      invariant ScannedKeys(keys[..k], stateOf, tasks, gaps)
      invariant forall i | 0 <= i < k :: !stateOf(keys[i]).Inconsistent?
    {
      ScannedNext(keys, k, stateOf, tasks, gaps);
      hide ScannedKeys;
      match stateOf(keys[k])
      case Inconsistent => return true, tasks, gaps;
      case Recorded => tasks := tasks + [keys[k]];
      case Unrecorded => gaps := gaps + [keys[k]];
    }
    assert keys[..|keys|] == keys;
  }

  ghost predicate ScannedKeys(keys: seq<TaskKey>, stateOf: TaskKey -> TaskState, tasks: seq<TaskKey>,
                              gaps: seq<TaskKey>) {
    && multiset(tasks) + multiset(gaps) == multiset(keys)
    && (forall i | 0 <= i < |tasks| :: stateOf(tasks[i]).Recorded?)
    && (forall i | 0 <= i < |gaps| :: stateOf(gaps[i]).Unrecorded?)
  }

  lemma {:induction false} ScannedNext(keys: seq<TaskKey>, k: nat, stateOf: TaskKey -> TaskState, tasks: seq<TaskKey>,
                                       gaps: seq<TaskKey>)
    requires k < |keys| && ScannedKeys(keys[..k], stateOf, tasks, gaps)
    ensures stateOf(keys[k]).Recorded? ==> ScannedKeys(keys[..k + 1], stateOf, tasks + [keys[k]], gaps)
    ensures stateOf(keys[k]).Unrecorded? ==> ScannedKeys(keys[..k + 1], stateOf, tasks, gaps + [keys[k]])
  {
    assert keys[..k + 1] == keys[..k] + [keys[k]];
  }

  ghost predicate UniqueSteps(steps: seq<RecordedStep>) {
    UniqueBy(steps, (step: RecordedStep) => step.id)
    && forall i | 0 <= i < |steps| :: Unique(steps[i].keys)
  }

  /** No task is declared twice by a plan with unique step ids and unique item keys: together with
      `ScanTasks`, each declared task is reported exactly once, as a task or as a gap. */
  lemma {:induction false} DeclaredOnce(steps: seq<RecordedStep>)
    requires UniqueSteps(steps)
    ensures Unique(DeclaredTasks(steps))
    decreases steps
  {
    if steps != [] {
      var rest, first := DeclaredTasks(steps[1..]), TasksOf(steps[0]);
      DeclaredOnce(steps[1..]);
      forall i, j | 0 <= i < |first| && 0 <= j < |rest| ensures first[i] != rest[j] {
        DeclaredTasksExact(steps[1..], rest[j]);
        var k :| 0 <= k < |steps[1..]| && TaskOf(steps[1..][k], rest[j]);
        assert steps[k + 1].id != steps[0].id;
      }
      assert Unique(first);
    }
  }
}
