/** The whole scan of a run with recorded plans (src/metaproc/runtime_projection.py,
    `scan_task_output_projection`): which scopes it accepts, which tasks it reports, and which gaps. */
module RuntimeScan {
  import opened Common
  import opened ScopeAcceptance
  import OutputProjection

  type RecordedStep = OutputProjection.RecordedStep
  type TaskKey = OutputProjection.TaskKey

  /** A task or a gap: a key in a scope. */
  datatype Task = Task(scope: Names, key: TaskKey)

  /** The recorded plan of a scope; reading it can end the scan. */
  datatype Recorded = Plan(steps: seq<RecordedStep>) | NoPlan | PlanError

  type Plans = Names -> Recorded

  /** What a recorded step says about child scopes. */
  function ScopeSteps(steps: seq<RecordedStep>): (r: Steps)
    ensures |r| == |steps| && forall k | 0 <= k < |r| :: r[k].id == steps[k].id
  {
    if steps == [] then []
    else
      [PlanStep(steps[0].id, steps[0].composite, steps[0].mapped, [set key | key in steps[0].keys])]
      + ScopeSteps(steps[1..])
  }

  function PlanSource(plans: Plans): PlanOf {
    path => match plans(path) case Plan(steps) => Some(ScopeSteps(steps)) case _ => None
  }

  function In(scope: Names, keys: seq<TaskKey>): (r: seq<Task>)
    ensures |r| == |keys| && forall k | 0 <= k < |r| :: r[k] == Task(scope, keys[k])
  {
    if keys == [] then [] else [Task(scope, keys[0])] + In(scope, keys[1..])
  }

  // ----- declared tasks of the accepted scopes

  ghost predicate AcceptedNow(before: Accepted, plans: Plans, path: Names) {
    (path == [] || Declared(before, path)) && plans(path).Plan?
  }

  ghost function TasksAt(before: Accepted, plans: Plans, path: Names): seq<Task> {
    if AcceptedNow(before, plans, path) then In(path, OutputProjection.DeclaredTasks(plans(path).steps)) else []
  }

  ghost function AllDeclared(scopes: seq<Names>, plans: Plans): seq<Task>
    decreases |scopes|
  {
    if scopes == [] then []
    else
      var init := scopes[..|scopes| - 1];
      AllDeclared(init, plans) + TasksAt(AcceptedAfter(init, PlanSource(plans)), plans, scopes[|scopes| - 1])
  }

  lemma {:induction false} AllDeclaredNext(scopes: seq<Names>, k: nat, plans: Plans)
    requires k < |scopes|
    ensures AllDeclared(scopes[..k + 1], plans)
         == AllDeclared(scopes[..k], plans) + TasksAt(AcceptedAfter(scopes[..k], PlanSource(plans)), plans, scopes[k])
  {
    assert scopes[..k + 1][..k] == scopes[..k];
  }

  type States = Task -> OutputProjection.TaskState

  /** Tasks have a recorded state; gaps have none. */
  ghost predicate Sorted(tasks: seq<Task>, gaps: seq<Task>, stateOf: States) {
    (forall k | 0 <= k < |tasks| :: stateOf(tasks[k]).Recorded?)
    && (forall k | 0 <= k < |gaps| :: stateOf(gaps[k]).Unrecorded?)
  }

  method ScanScope(scope: Names, keys: seq<TaskKey>, stateOf: States)
      returns (raised: bool, tasks: seq<Task>, gaps: seq<Task>)
    ensures raised <==> exists k | 0 <= k < |keys| :: stateOf(Task(scope, keys[k])).Inconsistent?
    ensures !raised ==> multiset(tasks) + multiset(gaps) == multiset(In(scope, keys)) && Sorted(tasks, gaps, stateOf)
  {
    var found, missing;
    raised, found, missing := OutputProjection.ScanTasks(keys, key => stateOf(Task(scope, key)));
    tasks, gaps := In(scope, found), In(scope, missing);
    if !raised {
      InMultiset(scope, found, missing, keys);
    }
  }

  /** Labelling with a scope keeps the multiset. */
  lemma {:induction false} InMultiset(scope: Names, a: seq<TaskKey>, b: seq<TaskKey>, all: seq<TaskKey>)
    requires multiset(a) + multiset(b) == multiset(all)
    ensures multiset(In(scope, a)) + multiset(In(scope, b)) == multiset(In(scope, all))
  {
    forall t: Task
      ensures (multiset(In(scope, a)) + multiset(In(scope, b)))[t] == multiset(In(scope, all))[t]
    {
      InCount(scope, a, t);
      InCount(scope, b, t);
      InCount(scope, all, t);
      assert (multiset(a) + multiset(b))[t.key] == multiset(all)[t.key];
    }
  }

  lemma {:induction false} InCount(scope: Names, keys: seq<TaskKey>, t: Task)
    ensures multiset(In(scope, keys))[t] == if t.scope == scope then multiset(keys)[t.key] else 0
  {
    if keys != [] {
      InCount(scope, keys[1..], t);
      assert keys == [keys[0]] + keys[1..];
      assert In(scope, keys) == [Task(scope, keys[0])] + In(scope, keys[1..]);
    }
  }

  // ----- child scopes without state

  /** The child scopes that a step declares: the step itself, or its items. */
  function ChildKeys(step: RecordedStep): seq<TaskKey> {
    if !step.composite then []
    else if !step.mapped then [OutputProjection.TaskKey(step.id, None)]
    else OutputProjection.KeyedTasks(step.id, step.keys)
  }

  function AllChildKeys(steps: seq<RecordedStep>): seq<TaskKey> {
    if steps == [] then [] else ChildKeys(steps[0]) + AllChildKeys(steps[1..])
  }

  /** The child scopes of a plan: composite steps that are scalar, and the items of composite steps that are mapped. */
  ghost predicate IsChild(steps: seq<RecordedStep>, key: TaskKey) {
    exists i | 0 <= i < |steps| :: ChildOfStep(steps[i], key)
  }

  predicate ChildOfStep(step: RecordedStep, key: TaskKey) {
    && step.id == key.step && step.composite
    && if step.mapped then key.item.Some? && key.item.value in step.keys else key.item.None?
  }

  lemma {:induction false} ChildKeysExact(step: RecordedStep, key: TaskKey)
    ensures key in ChildKeys(step) <==> ChildOfStep(step, key)
  {
    if step.mapped && ChildOfStep(step, key) {
      var k :| 0 <= k < |step.keys| && step.keys[k] == key.item.value;
      assert ChildKeys(step)[k] == key;
    }
  }

  lemma {:induction false} AllChildKeysExact(steps: seq<RecordedStep>, key: TaskKey)
    ensures key in AllChildKeys(steps) <==> IsChild(steps, key)
    decreases steps
  {
    if steps != [] {
      ChildKeysExact(steps[0], key);
      AllChildKeysExact(steps[1..], key);
      assert forall i | 0 < i < |steps| :: steps[i] == steps[1..][i - 1];
      assert forall i | 0 <= i < |steps| - 1 :: steps[1..][i] == steps[i + 1];
      assert IsChild(steps, key) <==> ChildOfStep(steps[0], key) || IsChild(steps[1..], key);
    }
  }

  function Parts(key: TaskKey): Names {
    [key.step] + if key.item.Some? then [key.item.value] else []
  }

  function Without(scope: Names, keys: seq<TaskKey>, hasState: Names -> bool): seq<Task> {
    if keys == [] then []
    else
      (if hasState(scope + Parts(keys[0])) then [] else [Task(scope, keys[0])]) + Without(scope, keys[1..], hasState)
  }

  lemma {:induction false} WithoutConcat(scope: Names, a: seq<TaskKey>, b: seq<TaskKey>, hasState: Names -> bool)
    ensures Without(scope, a + b, hasState) == Without(scope, a, hasState) + Without(scope, b, hasState)
  {
    if a == [] {
      assert a + b == b;
    } else {
      assert (a + b)[1..] == a[1..] + b;
      WithoutConcat(scope, a[1..], b, hasState);
    }
  }

  /** A gap is reported exactly for the declared child scopes without a state directory. */
  lemma {:induction false} WithoutExactly(scope: Names, keys: seq<TaskKey>, hasState: Names -> bool, t: Task)
    ensures t in Without(scope, keys, hasState) <==>
      t.scope == scope && t.key in keys && !hasState(scope + Parts(t.key))
  {
    if keys != [] {
      WithoutExactly(scope, keys[1..], hasState, t);
      assert t.key in keys <==> t.key == keys[0] || t.key in keys[1..];
    }
  }

  /** `_missing_scope_state`. */
  method MissingScopeState(scope: Names, steps: seq<RecordedStep>, hasState: Names -> bool) returns (gaps: seq<Task>)
    ensures gaps == Without(scope, AllChildKeys(steps), hasState)
  {
    hide Without, ChildKeys;
    gaps := [];
    for i := 0 to |steps|
      invariant gaps + Without(scope, AllChildKeys(steps[i..]), hasState)
             == Without(scope, AllChildKeys(steps), hasState)
    {
      ghost var before := gaps;
      var keys := ChildKeys(steps[i]);
      assert steps[i..][0] == steps[i] && steps[i..][1..] == steps[i + 1..];
      WithoutConcat(scope, keys, AllChildKeys(steps[i + 1..]), hasState);
      var more := MissingOf(scope, keys, hasState);
      gaps := gaps + more;
      Regroup(before, more, Without(scope, AllChildKeys(steps[i + 1..]), hasState));
    }
    WithoutNone(scope, hasState);
    assert steps[|steps|..] == [];
  }

  lemma {:induction false} WithoutNone(scope: Names, hasState: Names -> bool)
    ensures Without(scope, [], hasState) == []
  {
  }

  lemma {:induction false} Regroup(a: seq<Task>, b: seq<Task>, c: seq<Task>)
    ensures a + b + c == a + (b + c)
  {
  }

  method MissingOf(scope: Names, keys: seq<TaskKey>, hasState: Names -> bool) returns (gaps: seq<Task>)
    ensures gaps == Without(scope, keys, hasState)
  {
    hide Without;
    gaps := [];
    WithoutNone(scope, hasState);
    for i := 0 to |keys|
      invariant gaps == Without(scope, keys[..i], hasState)
    {
      assert keys[..i + 1] == keys[..i] + [keys[i]];
      WithoutConcat(scope, keys[..i], [keys[i]], hasState);
      WithoutOne(scope, keys[i], hasState);
      if !hasState(scope + Parts(keys[i])) {
        gaps := gaps + [Task(scope, keys[i])];
      }
    }
    assert keys[..|keys|] == keys;
  }

  lemma {:induction false} WithoutOne(scope: Names, key: TaskKey, hasState: Names -> bool)
    ensures Without(scope, [key], hasState) == if hasState(scope + Parts(key)) then [] else [Task(scope, key)]
  {
    assert [key][1..] == [];
  }

  // ----- the scan

  ghost function AllMissing(scopes: seq<Names>, plans: Plans, hasState: Names -> bool): seq<Task>
    decreases |scopes|
  {
    if scopes == [] then []
    else
      var init, last := scopes[..|scopes| - 1], scopes[|scopes| - 1];
      AllMissing(init, plans, hasState) + MissingAt(AcceptedAfter(init, PlanSource(plans)), plans, hasState, last)
  }

  ghost function MissingAt(before: Accepted, plans: Plans, hasState: Names -> bool, path: Names): seq<Task> {
    if AcceptedNow(before, plans, path) then Without(path, AllChildKeys(plans(path).steps), hasState) else []
  }

  /** What a scan that has not raised has found after some scopes. */
  ghost predicate Scanned(scopes: seq<Names>, plans: Plans, stateOf: States, hasState: Names -> bool,
                          accepted: Accepted, tasks: seq<Task>, gaps: seq<Task>, scopeGaps: seq<Task>) {
    && accepted == AcceptedAfter(scopes, PlanSource(plans))
    && multiset(tasks) + multiset(gaps) == multiset(AllDeclared(scopes, plans))
    && Sorted(tasks, gaps, stateOf)
    && scopeGaps == AllMissing(scopes, plans, hasState)
  }

  lemma {:induction false} ScannedNone(plans: Plans, stateOf: States, hasState: Names -> bool)
    ensures Scanned([], plans, stateOf, hasState, map[], [], [], [])
  {
  }

  lemma {:induction false} ScannedAccepted(scopes: seq<Names>, k: nat, plans: Plans, stateOf: States,
                                           hasState: Names -> bool, accepted: Accepted, tasks: seq<Task>,
                                           gaps: seq<Task>, scopeGaps: seq<Task>, found: seq<Task>, missing: seq<Task>)
    requires k < |scopes|
    requires Scanned(scopes[..k], plans, stateOf, hasState, accepted, tasks, gaps, scopeGaps)
    requires AcceptedNow(accepted, plans, scopes[k]) && Sorted(found, missing, stateOf)
    requires multiset(found) + multiset(missing) == multiset(TasksAt(accepted, plans, scopes[k]))
    ensures Scanned(scopes[..k + 1], plans, stateOf, hasState,
                    accepted[scopes[k] := ScopeSteps(plans(scopes[k]).steps)], tasks + found, gaps + missing,
                    scopeGaps + MissingAt(accepted, plans, hasState, scopes[k]))
  {
    hide TasksAt, MissingAt, AllMissing, Declared;
    AcceptedSnoc(scopes, k, PlanSource(plans));
    AllDeclaredNext(scopes, k, plans);
    AllMissingNext(scopes, k, plans, hasState);
    Pooled(tasks, found, gaps, missing);
  }

  lemma {:induction false} Pooled(a: seq<Task>, b: seq<Task>, c: seq<Task>, d: seq<Task>)
    ensures multiset(a + b) + multiset(c + d) == (multiset(a) + multiset(c)) + (multiset(b) + multiset(d))
  {
  }

  lemma {:induction false} AllMissingNext(scopes: seq<Names>, k: nat, plans: Plans, hasState: Names -> bool)
    requires k < |scopes|
    ensures AllMissing(scopes[..k + 1], plans, hasState) == AllMissing(scopes[..k], plans, hasState)
      + MissingAt(AcceptedAfter(scopes[..k], PlanSource(plans)), plans, hasState, scopes[k])
  {
    assert scopes[..k + 1][..k] == scopes[..k];
  }

  lemma {:induction false} ScannedRefused(scopes: seq<Names>, k: nat, plans: Plans, stateOf: States,
                                          hasState: Names -> bool, accepted: Accepted, tasks: seq<Task>,
                                          gaps: seq<Task>, scopeGaps: seq<Task>)
    requires k < |scopes| && Scanned(scopes[..k], plans, stateOf, hasState, accepted, tasks, gaps, scopeGaps)
    requires !AcceptedNow(accepted, plans, scopes[k])
    ensures Scanned(scopes[..k + 1], plans, stateOf, hasState, accepted, tasks, gaps, scopeGaps)
  {
    AcceptedSnoc(scopes, k, PlanSource(plans));
    AllDeclaredNext(scopes, k, plans);
    AllMissingNext(scopes, k, plans, hasState);
  }

  /** A recorded plan that cannot be read, or that declares a task whose records contradict one another. */
  ghost predicate Faulty(plans: Plans, stateOf: States, path: Names) {
    match plans(path)
    case PlanError => true
    case NoPlan => false
    case Plan(steps) =>
      exists key | OutputProjection.IsTask(steps, key) :: stateOf(Task(path, key)).Inconsistent?
  }

  ghost predicate FaultAt(before: Accepted, plans: Plans, stateOf: States, path: Names) {
    (path == [] || Declared(before, path)) && Faulty(plans, stateOf, path)
  }

  /** Some scope that is declared when the walk gets there is faulty. */
  ghost predicate Raises(scopes: seq<Names>, plans: Plans, stateOf: States) {
    exists k :: 0 <= k < |scopes| && FaultAt(AcceptedAfter(scopes[..k], PlanSource(plans)), plans, stateOf, scopes[k])
  }

  /** The loop of `scan_task_output_projection` over the scopes of the walk. */
  method Scan(scopes: seq<Names>, plans: Plans, stateOf: States, hasState: Names -> bool)
      returns (raised: bool, accepted: Accepted, tasks: seq<Task>, gaps: seq<Task>, scopeGaps: seq<Task>)
    ensures raised <==> Raises(scopes, plans, stateOf)
    ensures !raised ==> Scanned(scopes, plans, stateOf, hasState, accepted, tasks, gaps, scopeGaps)
  {
    hide Scanned, AcceptedAfter, Sorted, FaultAt;
    raised, accepted, tasks, gaps, scopeGaps := false, map[], [], [], [];
    ScannedNone(plans, stateOf, hasState);
    for k := 0 to |scopes|
      invariant Scanned(scopes[..k], plans, stateOf, hasState, accepted, tasks, gaps, scopeGaps)
      invariant forall i | 0 <= i < k ::
        !FaultAt(AcceptedAfter(scopes[..i], PlanSource(plans)), plans, stateOf, scopes[i])
    {
      var path := scopes[k];
      ScannedSoFar(scopes[..k], plans, stateOf, hasState, accepted, tasks, gaps, scopeGaps);
      var declared := path == [];
      if !declared { declared := ScopeIsDeclared(path, accepted); }
      FaultNow(accepted, plans, stateOf, path);
      var plan := plans(path);
      if declared && plan.PlanError? { return true, accepted, tasks, gaps, scopeGaps; }
      if declared && plan.Plan? {
        var more := MissingScopeState(path, plan.steps, hasState);
        var fell, found, missing := ScanScope(path, OutputProjection.DeclaredTasks(plan.steps), stateOf);
        if fell { return true, accepted, tasks, gaps, scopeGaps; }
        ScannedAccepted(scopes, k, plans, stateOf, hasState, accepted, tasks, gaps, scopeGaps, found, missing);
        accepted := accepted[path := ScopeSteps(plan.steps)];
        tasks, gaps, scopeGaps := tasks + found, gaps + missing, scopeGaps + more;
      } else {
        ScannedRefused(scopes, k, plans, stateOf, hasState, accepted, tasks, gaps, scopeGaps);
      }
    }
    assert scopes[..|scopes|] == scopes;
  }

  lemma {:induction false} ScannedSoFar(scopes: seq<Names>, plans: Plans, stateOf: States, hasState: Names -> bool,
                                        accepted: Accepted, tasks: seq<Task>, gaps: seq<Task>, scopeGaps: seq<Task>)
    requires Scanned(scopes, plans, stateOf, hasState, accepted, tasks, gaps, scopeGaps)
    ensures accepted == AcceptedAfter(scopes, PlanSource(plans))
  {
  }

  lemma {:induction false} FaultNow(before: Accepted, plans: Plans, stateOf: States, path: Names)
    ensures FaultAt(before, plans, stateOf, path) <==>
      (path == [] || Declared(before, path))
      && match plans(path)
         case PlanError => true
         case NoPlan => false
         case Plan(steps) =>
           var keys := OutputProjection.DeclaredTasks(steps);
           exists k | 0 <= k < |keys| :: stateOf(Task(path, keys[k])).Inconsistent?
  {
    if plans(path).Plan? { FaultyTasks(plans, stateOf, path); }
  }

  lemma {:induction false} FaultyTasks(plans: Plans, stateOf: States, path: Names)
    requires plans(path).Plan?
    ensures var keys := OutputProjection.DeclaredTasks(plans(path).steps);
      Faulty(plans, stateOf, path) <==> exists k | 0 <= k < |keys| :: stateOf(Task(path, keys[k])).Inconsistent?
  {
    var steps := plans(path).steps;
    var keys := OutputProjection.DeclaredTasks(steps);
    forall key ensures key in keys <==> OutputProjection.IsTask(steps, key) {
      OutputProjection.DeclaredTasksExact(steps, key);
    }
  }

  /** A scan raises if and only if some walked scope is faulty that is the root or declared by its nearest accepted
      parent; what other scopes record does not matter. */
  lemma {:induction false} RaisesExactly(scopes: seq<Names>, plans: Plans, stateOf: States)
    requires PrefixFirst(scopes)
    ensures Raises(scopes, plans, stateOf) <==>
      exists path | path in scopes :: FaultAt(AcceptedAfter(scopes, PlanSource(plans)), plans, stateOf, path)
  {
    hide AcceptedAfter, PrefixFirst, Faulty, Declared;
    var source := PlanSource(plans);
    if Raises(scopes, plans, stateOf) {
      var k :| 0 <= k < |scopes| && FaultAt(AcceptedAfter(scopes[..k], source), plans, stateOf, scopes[k]);
      DeclaredFinally(scopes, source, k);
      assert scopes[k] in scopes;
    }
    if path :| path in scopes && FaultAt(AcceptedAfter(scopes, source), plans, stateOf, path) {
      var k :| 0 <= k < |scopes| && scopes[k] == path;
      DeclaredFinally(scopes, source, k);
    }
  }

  // ----- what a whole scan reports

  /** Every declared task of every accepted scope is a task or a gap, and nothing else is. */
  lemma {:induction false} DeclaredExactly(scopes: seq<Names>, plans: Plans, t: Task)
    requires PrefixFirst(scopes)
    ensures t in AllDeclared(scopes, plans) <==>
      && t.scope in AcceptedAfter(scopes, PlanSource(plans))
      && plans(t.scope).Plan? && OutputProjection.IsTask(plans(t.scope).steps, t.key)
    decreases |scopes|
  {
    if scopes != [] {
      var n := |scopes| - 1;
      var init, last := scopes[..n], scopes[n];
      DeclaredExactly(init, plans, t);
      var before := AcceptedAfter(init, PlanSource(plans));
      AcceptedAreScopes(init, PlanSource(plans));
      AcceptedAreScopes(scopes, PlanSource(plans));
      var steps := if plans(last).Plan? then plans(last).steps else [];
      InExactly(last, OutputProjection.DeclaredTasks(steps), t);
      OutputProjection.DeclaredTasksExact(steps, t.key);
      NotBefore(scopes, last);
      assert t in AllDeclared(scopes, plans) <==> t in AllDeclared(init, plans) || t in TasksAt(before, plans, last);
    }
  }

  lemma {:induction false} NotBefore(scopes: seq<Names>, last: Names)
    requires scopes != [] && last == scopes[|scopes| - 1] && PrefixFirst(scopes)
    ensures last !in scopes[..|scopes| - 1]
  {
  }

  lemma {:induction false} InExactly(scope: Names, keys: seq<TaskKey>, t: Task)
    ensures t in In(scope, keys) <==> t.scope == scope && t.key in keys
  {
    if t.scope == scope && t.key in keys {
      var k :| 0 <= k < |keys| && keys[k] == t.key;
      assert In(scope, keys)[k] == t;
    }
  }

  ghost predicate PlansValid(scopes: seq<Names>, plans: Plans) {
    forall k | 0 <= k < |scopes| && plans(scopes[k]).Plan? :: OutputProjection.UniqueSteps(plans(scopes[k]).steps)
  }

  /** No task is declared twice in a scan. */
  lemma {:induction false} AllDeclaredOnce(scopes: seq<Names>, plans: Plans)
    requires PrefixFirst(scopes) && PlansValid(scopes, plans)
    ensures Unique(AllDeclared(scopes, plans))
    decreases |scopes|
  {
    if scopes != [] {
      var n := |scopes| - 1;
      var init, last := scopes[..n], scopes[n];
      AllDeclaredOnce(init, plans);
      var earlier := AllDeclared(init, plans);
      var more := TasksAt(AcceptedAfter(init, PlanSource(plans)), plans, last);
      assert plans(last).Plan? ==> OutputProjection.UniqueSteps(plans(last).steps);
      if plans(last).Plan? { OutputProjection.DeclaredOnce(plans(last).steps); }
      forall i, j | 0 <= i < |earlier| && 0 <= j < |more| ensures earlier[i] != more[j] {
        DeclaredExactly(init, plans, earlier[i]);
        AcceptedAreScopes(init, PlanSource(plans));
        NotBefore(scopes, last);
      }
    }
  }

  /** A scan that does not raise loses and duplicates no task: each declared task of an accepted scope is reported
      exactly once, as a task if its state is recorded and as a gap if it is not, and nothing else is reported. */
  lemma {:induction false} Conservation(scopes: seq<Names>, plans: Plans, stateOf: States, hasState: Names -> bool,
                                        accepted: Accepted, tasks: seq<Task>, gaps: seq<Task>, scopeGaps: seq<Task>,
                                        t: Task)
    requires Scanned(scopes, plans, stateOf, hasState, accepted, tasks, gaps, scopeGaps)
    requires PrefixFirst(scopes) && PlansValid(scopes, plans)
    ensures multiset(tasks)[t] + multiset(gaps)[t] ==
      if t.scope in accepted && plans(t.scope).Plan? && OutputProjection.IsTask(plans(t.scope).steps, t.key)
      then 1 else 0
    ensures t in tasks ==> stateOf(t).Recorded?
    ensures t in gaps ==> stateOf(t).Unrecorded?
  {
    var all := AllDeclared(scopes, plans);
    AllDeclaredOnce(scopes, plans);
    DeclaredExactly(scopes, plans, t);
    AcceptedAreScopes(scopes, PlanSource(plans));
    CountOnce(all, t);
    assert (multiset(tasks) + multiset(gaps))[t] == multiset(all)[t];
  }

  lemma {:induction false} CountOnce(s: seq<Task>, t: Task)
    requires Unique(s)
    ensures multiset(s)[t] == if t in s then 1 else 0
  {
    if s != [] {
      assert s == [s[0]] + s[1..];
      assert Unique(s[1..]);
      CountOnce(s[1..], t);
      assert s[0] !in s[1..];
    }
  }

  /** A missing scope is reported exactly for the declared child scopes of accepted scopes that have no state. */
  lemma {:induction false} MissingExactly(scopes: seq<Names>, plans: Plans, hasState: Names -> bool, t: Task)
    requires PrefixFirst(scopes)
    ensures t in AllMissing(scopes, plans, hasState) <==>
      && t.scope in AcceptedAfter(scopes, PlanSource(plans)) && plans(t.scope).Plan?
      && IsChild(plans(t.scope).steps, t.key) && !hasState(t.scope + Parts(t.key))
    decreases |scopes|
  {
    if scopes != [] {
      var n := |scopes| - 1;
      var init, last := scopes[..n], scopes[n];
      MissingExactly(init, plans, hasState, t);
      var before := AcceptedAfter(init, PlanSource(plans));
      AcceptedAreScopes(init, PlanSource(plans));
      AcceptedAreScopes(scopes, PlanSource(plans));
      if plans(last).Plan? {
        WithoutExactly(last, AllChildKeys(plans(last).steps), hasState, t);
        AllChildKeysExact(plans(last).steps, t.key);
      }
      NotBefore(scopes, last);
      assert t in AllMissing(scopes, plans, hasState) <==>
        t in AllMissing(init, plans, hasState) || t in MissingAt(before, plans, hasState, last);
    }
  }
}
