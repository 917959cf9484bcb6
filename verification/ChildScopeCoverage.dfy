/** The walk (src/metaproc/paths.py) and the projection (src/metaproc/runtime_projection.py) together: what becomes of
    a child scope that an accepted plan declares. */
module ChildScopeCoverage {
  import opened Common
  import opened RunTreeWalk
  import opened RunTreeOrder
  import opened RunTreeProperties
  import opened RunTreePaths
  import opened ScopeAcceptance
  import opened RuntimeScan

  type Key = OutputProjection.TaskKey

  predicate WalkedAll(names: seq<string>) {
    forall i | 0 <= i < |names| :: Walked(names[i])
  }

  // ----- where a path leads

  function Find(entries: seq<Entry>, name: string): (r: Option<RealPath>)
    ensures r.Some? ==> Entry(name, r.value) in entries
  {
    if entries == [] then None
    else if entries[0].name == name then Some(entries[0].target) else Find(entries[1..], name)
  }

  /** The directory that names lead to from `d`, through symlinks, whether or not the walk skips the names. */
  function Resolve(t: Tree, d: RealPath, names: seq<string>): (r: Option<RealPath>)
    requires Valid(t) && d in t.dirs
    ensures r.Some? ==> r.value in t.dirs
    decreases |names|
  {
    if names == [] then Some(d)
    else
      match Find(t.dirs[d], names[0])
      case None => None
      case Some(next) => Resolve(t, next, names[1..])
  }

  lemma {:induction false} FindEntry(entries: seq<Entry>, e: Entry)
    requires UniqueNames(entries) && e in entries
    ensures Find(entries, e.name) == Some(e.target)
    decreases entries
  {
    var k :| 0 <= k < |entries| && entries[k] == e;
    if k > 0 {
      assert entries[0].name != e.name;
      assert forall i | 0 <= i < |entries| - 1 :: entries[1..][i] == entries[i + 1];
      assert entries[1..][k - 1] == e;
      FindEntry(entries[1..], e);
    }
  }

  lemma {:induction false} FilteredHas(entries: seq<Entry>, e: Entry)
    requires e in entries && Walked(e.name)
    ensures e in Filtered(entries)
  {
    if entries[0] != e { FilteredHas(entries[1..], e); }
  }

  /** The walk enters exactly the entries whose names it does not skip. */
  lemma {:induction false} EntersExactly(t: Tree, d: RealPath, e: Entry, name: string)
    requires UniqueListings(t) && d in t.dirs
    ensures Enters(t, d, e, name) <==> e.name == name && Walked(name) && Find(t.dirs[d], name) == Some(e.target)
  {
    if Enters(t, d, e, name) {
      FindEntry(t.dirs[d], e);
    }
    if e.name == name && Walked(name) && Find(t.dirs[d], name) == Some(e.target) {
      assert e == Entry(name, e.target);
      FilteredHas(t.dirs[d], e);
    }
  }

  lemma {:induction false} ResolveConcat(t: Tree, d: RealPath, a: seq<string>, b: seq<string>)
    requires Valid(t) && d in t.dirs
    ensures Resolve(t, d, a + b) == if Resolve(t, d, a).None? then None else Resolve(t, Resolve(t, d, a).value, b)
    decreases |a|
  {
    if a == [] {
      assert a + b == b;
    } else {
      assert (a + b)[1..] == a[1..] + b;
      var next := Find(t.dirs[d], a[0]);
      if next.Some? { ResolveConcat(t, next.value, a[1..], b); }
    }
  }

  // ----- rule paths, one segment further

  /** A rule path leads where its names do. */
  lemma {:induction false} RuleResolves(t: Tree, d: RealPath, names: seq<string>, to: RealPath)
    requires UniqueListings(t) && RulePath(t, d, names, to)
    ensures d in t.dirs && Resolve(t, d, names) == Some(to)
    decreases |names|, 0
  {
    hide StepPath, Enters, UniqueNames;
    if names == [] {
      RuleNil(t, d, to);
    } else {
      var e := RuleHead(t, d, names, to);
      hide RulePath;
      StepResolves(t, e.target, names[1..], to);
      EntersDir(t, d, e, names[0]);
      EntersExactly(t, d, e, names[0]);
    }
  }

  lemma {:induction false} EntersDir(t: Tree, d: RealPath, e: Entry, name: string)
    requires Valid(t) && Enters(t, d, e, name)
    ensures d in t.dirs && e.target in t.dirs
  {
  }

  lemma {:induction false} StepResolves(t: Tree, step: RealPath, names: seq<string>, to: RealPath)
    requires UniqueListings(t) && StepPath(t, step, names, to)
    ensures step in t.dirs && Resolve(t, step, names) == Some(to)
    decreases |names|, 1
  {
    if IsScope(t, step) {
      RuleResolves(t, step, names, to);
    } else {
      var e := ItemHead(t, step, names, to);
      RuleResolves(t, e.target, names[1..], to);
      EntersDir(t, step, e, names[0]);
      EntersExactly(t, step, e, names[0]);
    }
  }

  /** All names on a rule path are walked, and it ends at a scope. */
  lemma {:induction false} RuleWalked(t: Tree, d: RealPath, names: seq<string>, to: RealPath)
    requires UniqueListings(t) && RulePath(t, d, names, to)
    ensures WalkedAll(names) && (names != [] ==> IsScope(t, to))
    decreases |names|, 0
  {
    hide StepPath, Enters, UniqueNames, IsScope, Walked;
    if names != [] {
      var e := RuleHead(t, d, names, to);
      hide RulePath;
      EntersDir(t, d, e, names[0]);
      EntersExactly(t, d, e, names[0]);
      StepWalked(t, e.target, names[1..], to);
      assert forall i | 0 < i < |names| :: names[i] == names[1..][i - 1];
    }
  }

  lemma {:induction false} StepWalked(t: Tree, step: RealPath, names: seq<string>, to: RealPath)
    requires UniqueListings(t) && StepPath(t, step, names, to)
    ensures WalkedAll(names) && IsScope(t, to)
    decreases |names|, 1
  {
    hide RulePath, Enters, UniqueNames, Walked;
    if IsScope(t, step) {
      RuleWalked(t, step, names, to);
      if names == [] { RuleNil(t, step, to); }
    } else {
      var e := ItemHead(t, step, names, to);
      hide StepPath, IsScope;
      RuleWalked(t, e.target, names[1..], to);
      EntersDir(t, step, e, names[0]);
      EntersExactly(t, step, e, names[0]);
      if names[1..] == [] { RuleNil(t, e.target, to); }
      assert forall i | 0 < i < |names| :: names[i] == names[1..][i - 1];
    }
  }

  /** What follows a rule path on a longer one is a rule path itself. */
  lemma {:induction false} RuleSplit(t: Tree, d: RealPath, a: seq<string>, mid: RealPath, b: seq<string>, to: RealPath)
    requires UniqueListings(t) && RulePath(t, d, a, mid) && RulePath(t, d, a + b, to)
    ensures RulePath(t, mid, b, to)
    decreases |a|, 0
  {
    hide RulePath, StepPath, Enters, UniqueNames;
    if a == [] {
      RuleNil(t, d, mid);
      assert a + b == b;
    } else {
      var e := RuleHead(t, d, a, mid);
      var f := RuleHead(t, d, a + b, to);
      EntersDir(t, d, e, a[0]);
      EntersExactly(t, d, e, a[0]);
      EntersExactly(t, d, f, a[0]);
      assert (a + b)[1..] == a[1..] + b;
      StepSplit(t, e.target, a[1..], mid, b, to);
    }
  }

  lemma {:induction false} StepSplit(t: Tree, step: RealPath, a: seq<string>, mid: RealPath, b: seq<string>,
                                     to: RealPath)
    requires UniqueListings(t) && StepPath(t, step, a, mid) && StepPath(t, step, a + b, to)
    ensures RulePath(t, mid, b, to)
    decreases |a|, 1
  {
    hide RulePath, Enters, UniqueNames;
    if IsScope(t, step) {
      RuleSplit(t, step, a, mid, b, to);
    } else {
      var e := ItemHead(t, step, a, mid);
      var f := ItemHead(t, step, a + b, to);
      hide StepPath, IsScope;
      EntersDir(t, step, e, a[0]);
      EntersExactly(t, step, e, a[0]);
      EntersExactly(t, step, f, a[0]);
      assert (a + b)[1..] == a[1..] + b;
      RuleSplit(t, e.target, a[1..], mid, b, to);
    }
  }

  /** One or two names below a directory are a rule path if and only if they lead to a scope and are walked. */
  lemma {:induction false} SegmentRule(t: Tree, d: RealPath, parts: seq<string>, to: RealPath)
    requires UniqueListings(t) && d in t.dirs && 1 <= |parts| <= 2
    ensures RulePath(t, d, parts, to) <==>
      Resolve(t, d, parts) == Some(to) && IsScope(t, to) && WalkedAll(parts)
    decreases |parts|
  {
    hide RulePath, StepPath, Enters, UniqueNames, Walked;
    if RulePath(t, d, parts, to) {
      RuleResolves(t, d, parts, to);
      RuleWalked(t, d, parts, to);
    }
    if Resolve(t, d, parts) == Some(to) && IsScope(t, to) && WalkedAll(parts) {
      var e := Entry(parts[0], Find(t.dirs[d], parts[0]).value);
      EntersExactly(t, d, e, parts[0]);
      StepRule(t, e.target, parts[1..], to);
      RuleFrom(t, d, e, parts, to);
    }
  }

  lemma {:induction false} StepRule(t: Tree, step: RealPath, parts: seq<string>, to: RealPath)
    requires UniqueListings(t) && step in t.dirs && |parts| <= 1
    requires Resolve(t, step, parts) == Some(to) && IsScope(t, to) && WalkedAll(parts)
    ensures StepPath(t, step, parts, to)
    decreases |parts|, 1
  {
    hide RulePath, Enters, UniqueNames, Walked;
    if parts == [] {
      RuleNil(t, to, to);
    } else {
      var e := Entry(parts[0], to);
      assert Resolve(t, step, parts) == Find(t.dirs[step], parts[0]) by {
        var next := Find(t.dirs[step], parts[0]).value;
        assert Resolve(t, next, parts[1..]) == Some(next);
      }
      EntersExactly(t, step, e, parts[0]);
      assert parts[1..] == [];
      RuleNil(t, to, to);
      if IsScope(t, step) {
        assert StepPath(t, to, [], to);
        RuleFrom(t, step, e, parts, to);
      } else {
        ItemFrom(t, step, e, parts, to);
      }
    }
  }

  // ----- declared children

  ghost predicate ValidSteps(steps: seq<RecordedStep>) {
    OutputProjection.UniqueSteps(steps)
    && forall i, k | 0 <= i < |steps| && 0 <= k < |steps[i].keys| :: IsSafeItemKey(steps[i].keys[k])
  }

  lemma {:induction false} FindsStep(steps: seq<RecordedStep>, i: nat)
    requires i < |steps| && forall j | 0 <= j < i :: steps[j].id != steps[i].id
    ensures FindStep(ScopeSteps(steps), steps[i].id)
      == Some(PlanStep(steps[i].id, steps[i].composite, steps[i].mapped, [set key | key in steps[i].keys]))
  {
    if i > 0 {
      FindsStep(steps[1..], i - 1);
      assert ScopeSteps(steps)[1..] == ScopeSteps(steps[1..]);
    }
  }

  /** A declared child is a segment of its plan, and no shorter part of it is. */
  lemma {:induction false} ChildSegment(steps: seq<RecordedStep>, key: Key)
    requires ValidSteps(steps) && IsChild(steps, key)
    ensures Segment(ScopeSteps(steps), Parts(key))
    ensures key.item.Some? ==> !Segment(ScopeSteps(steps), [key.step])
  {
    var i :| 0 <= i < |steps| && ChildOfStep(steps[i], key);
    FindsStep(steps, i);
    if steps[i].mapped {
      var k :| 0 <= k < |steps[i].keys| && steps[i].keys[k] == key.item.value;
      assert IsSafeItemKey(steps[i].keys[k]);
    }
  }

  /** A step that is found is the one with its id. */
  lemma {:induction false} FoundStep(steps: seq<RecordedStep>, id: string) returns (i: nat)
    requires ValidSteps(steps) && FindStep(ScopeSteps(steps), id).Some?
    ensures i < |steps| && steps[i].id == id
    ensures FindStep(ScopeSteps(steps), id)
      == Some(PlanStep(id, steps[i].composite, steps[i].mapped, [set key | key in steps[i].keys]))
  {
    hide ScopeSteps, FindStep, IsSafeItemKey;
    var plan := ScopeSteps(steps);
    i :| 0 <= i < |plan| && plan[i] == FindStep(plan, id).value;
    FindsStep(steps, i);
  }

  function KeyOf(parts: seq<string>): Key
    requires |parts| in {1, 2}
  {
    OutputProjection.TaskKey(parts[0], if |parts| == 2 then Some(parts[1]) else None)
  }

  lemma {:induction false} SegmentIsChild(steps: seq<RecordedStep>, parts: seq<string>)
    requires ValidSteps(steps) && Segment(ScopeSteps(steps), parts)
    ensures IsChild(steps, KeyOf(parts)) && Parts(KeyOf(parts)) == parts
  {
    hide ScopeSteps, IsSafeItemKey, ValidSteps;
    var i := FoundStep(steps, parts[0]);
    assert ChildOfStep(steps[i], KeyOf(parts));
  }

  /** The acceptance of scopes and the report of missing ones agree on what a child is. */
  lemma {:induction false} SegmentsAreChildren(steps: seq<RecordedStep>, parts: seq<string>)
    requires ValidSteps(steps)
    ensures Segment(ScopeSteps(steps), parts) <==> exists key :: IsChild(steps, key) && Parts(key) == parts
  {
    hide Segment, ScopeSteps, ValidSteps, IsChild, Parts;
    if Segment(ScopeSteps(steps), parts) {
      SegmentLength(steps, parts);
      SegmentIsChild(steps, parts);
    }
    if key :| IsChild(steps, key) && Parts(key) == parts {
      ChildSegment(steps, key);
    }
  }

  lemma {:induction false} SegmentLength(steps: seq<RecordedStep>, parts: seq<string>)
    requires Segment(ScopeSteps(steps), parts)
    ensures |parts| in {1, 2}
  {
  }

  // ----- what becomes of a child scope

  ghost function Walks(t: Tree): seq<seq<string>>
    requires Valid(t)
  {
    PathsOf(Walk(t))
  }

  lemma {:induction false} WalkedPaths(t: Tree, path: seq<string>)
    requires UniqueListings(t) && OnePath(t)
    ensures PrefixFirst(Walks(t))
    ensures path in Walks(t) <==> exists d :: RulePath(t, t.root, path, d)
  {
    hide RulePath, Walk, OnePath, UniqueNames, PrefixFirst;
    WalkPrefixFirst(t);
    LinkedExact(t);
    PathYielded(Walk(t), path);
    if d :| Scope(path, d) in Walk(t) { assert RulePath(t, t.root, path, d); }
    if d :| RulePath(t, t.root, path, d) { assert Scope(path, d) in Walk(t); }
  }

  lemma {:induction false} PathYielded(ys: seq<Scope>, path: seq<string>)
    ensures path in PathsOf(ys) <==> exists d :: Scope(path, d) in ys
  {
    if path in PathsOf(ys) {
      var k :| 0 <= k < |ys| && PathsOf(ys)[k] == path;
      assert ys[k] in ys && ys[k] == Scope(path, ys[k].dir);
    }
    if d :| Scope(path, d) in ys {
      var k :| 0 <= k < |ys| && ys[k] == Scope(path, d);
      assert PathsOf(ys)[k] == path;
    }
  }

  lemma {:induction false} NearestChild(scopes: seq<seq<string>>, plans: Plans, s: seq<string>, key: Key)
    requires PrefixFirst(scopes) && s in AcceptedAfter(scopes, PlanSource(plans))
    requires plans(s).Plan? && ValidSteps(plans(s).steps) && IsChild(plans(s).steps, key)
    ensures Declared(AcceptedAfter(scopes, PlanSource(plans)), s + Parts(key))
  {
    hide AcceptedAfter, Segment;
    var accepted, parts := AcceptedAfter(scopes, PlanSource(plans)), Parts(key);
    var path := s + parts;
    AcceptedAreScopes(scopes, PlanSource(plans));
    assert accepted[s] == ScopeSteps(plans(s).steps);
    ChildSegment(plans(s).steps, key);
    forall q | q in accepted && q < path ensures |q| <= |s| {
      if |q| > |s| {
        assert |q| == |s| + 1 && path[|s|] == key.step;
        MiddleScalar(scopes, PlanSource(plans), path, s, q);
      }
    }
    assert path[|s|..] == parts;
    assert Nearest(accepted, s, path);
  }

  /** A scope that the projection accepts and whose plan declares a child, which has a plan of its own. */
  ghost predicate Declares(t: Tree, plans: Plans, s: seq<string>, key: Key)
    requires Valid(t)
  {
    && s in AcceptedAfter(Walks(t), PlanSource(plans)) && plans(s).Plan? && ValidSteps(plans(s).steps)
    && IsChild(plans(s).steps, key) && plans(s + Parts(key)).Plan?
  }

  /** The directory of a child scope, if its path leads to one. */
  function ChildDir(t: Tree, s: seq<string>, key: Key): Option<RealPath>
    requires Valid(t)
  {
    Resolve(t, t.root, s + Parts(key))
  }

  /** A child of a walked scope is walked if and only if its path leads to a scope and its names are walked. */
  lemma {:induction false} ChildWalked(t: Tree, s: seq<string>, parts: seq<string>)
    requires UniqueListings(t) && OnePath(t) && s in Walks(t) && 1 <= |parts| <= 2
    ensures s + parts in Walks(t) <==>
      var at := Resolve(t, t.root, s + parts);
      at.Some? && IsScope(t, at.value) && WalkedAll(parts)
  {
    hide RulePath, IsScope, UniqueNames, OnePath, Walks;
    WalkedPaths(t, s);
    WalkedPaths(t, s + parts);
    var d :| RulePath(t, t.root, s, d);
    RuleResolves(t, t.root, s, d);
    ResolveConcat(t, t.root, s, parts);
    var at := Resolve(t, d, parts);
    ResolvesInside(t, d, parts);
    if to :| RulePath(t, t.root, s + parts, to) {
      RuleSplit(t, t.root, s, d, parts, to);
      SegmentRule(t, d, parts, to);
    }
    if at.Some? && IsScope(t, at.value) && WalkedAll(parts) {
      SegmentRule(t, d, parts, at.value);
      RuleConcat(t, t.root, s, d, parts, at.value);
    }
  }

  lemma {:induction false} ResolvesInside(t: Tree, d: RealPath, names: seq<string>)
    requires Valid(t) && d in t.dirs
    ensures Resolve(t, d, names).Some? ==> Resolve(t, d, names).value in t.dirs
  {
  }

  /** On every graph a declared child scope with a plan of its own is accepted if and only if it is walked. */
  lemma {:induction false} ChildAccepted(t: Tree, plans: Plans, s: seq<string>, key: Key)
    requires UniqueListings(t) && Declares(t, plans, s, key)
    ensures s in Walks(t)
    ensures Reported(t, plans, s, key) <==> s + Parts(key) in Walks(t)
  {
    hide AcceptedAfter, Walks, PrefixFirst, ValidSteps, IsChild, UniqueNames, Declared;
    var scopes, path := Walks(t), s + Parts(key);
    WalksPrefixFirst(t);
    AcceptedAreScopes(scopes, PlanSource(plans));
    NearestChild(scopes, plans, s, key);
    if path in scopes {
      AcceptedExactly(scopes, PlanSource(plans), path);
    }
  }

  lemma {:induction false} WalksPrefixFirst(t: Tree)
    requires UniqueListings(t)
    ensures PrefixFirst(Walks(t))
  {
    WalkPrefixFirst(t);
  }

  /** On every graph the directory of a child with walked names is walked, if under another path. */
  lemma {:induction false} ChildReached(t: Tree, scope: Scope, parts: seq<string>)
    requires UniqueListings(t) && scope in Walk(t) && scope.dir in t.dirs && 1 <= |parts| <= 2
    ensures var at := Resolve(t, scope.dir, parts);
      at.Some? && IsScope(t, at.value) && WalkedAll(parts) ==> at.value in Dirs(Walk(t))
  {
    hide UniqueNames, IsScope, Walk;
    var at := Resolve(t, scope.dir, parts);
    if at.Some? && IsScope(t, at.value) && WalkedAll(parts) {
      SegmentRule(t, scope.dir, parts, at.value);
      assert scope.dir in Dirs(Walk(t));
      Reached(t, scope.dir, parts, at.value);
    }
  }

  /** Whether the state directory of the scope at a path is found, and resolves inside the root: `kept` are the
      directories of which it does. */
  ghost function HasState(t: Tree, kept: set<RealPath>): Names -> bool
    requires Valid(t)
  {
    path => Resolve(t, t.root, path).Some? && Resolve(t, t.root, path).value in kept
  }

  /** The path of the child leads to a directory whose state directory resolves inside the root. */
  ghost predicate ChildKept(t: Tree, kept: set<RealPath>, s: seq<string>, key: Key)
    requires Valid(t)
  {
    ChildDir(t, s, key).Some? && ChildDir(t, s, key).value in kept
  }

  /** What a scan reports of a child scope: its tasks, because it is accepted, or that it is missing. */
  ghost predicate Reported(t: Tree, plans: Plans, s: seq<string>, key: Key)
    requires Valid(t)
  {
    s + Parts(key) in AcceptedAfter(Walks(t), PlanSource(plans))
  }

  ghost predicate Missed(t: Tree, kept: set<RealPath>, plans: Plans, s: seq<string>, key: Key)
    requires Valid(t)
  {
    Task(s, key) in AllMissing(Walks(t), plans, HasState(t, kept))
  }

  /** On every graph: no declared child scope goes unnoticed if and only if, as far as its state directory resolves
      inside the root, it is walked.  It is accepted, and then its tasks are reported, or it is reported as missing; it
      is both only if its state directory is a symlink out of the root. */
  lemma {:induction false} NoticedExactly(t: Tree, kept: set<RealPath>, plans: Plans, s: seq<string>, key: Key)
    requires UniqueListings(t) && Declares(t, plans, s, key)
    ensures Reported(t, plans, s, key) || Missed(t, kept, plans, s, key) <==>
      (ChildKept(t, kept, s, key) ==> s + Parts(key) in Walks(t))
    ensures Reported(t, plans, s, key) && Missed(t, kept, plans, s, key) <==>
      s + Parts(key) in Walks(t) && !ChildKept(t, kept, s, key)
  {
    hide AcceptedAfter, AllMissing, UniqueNames, Walks, PrefixFirst;
    ChildAccepted(t, plans, s, key);
    WalksPrefixFirst(t);
    MissingExactly(Walks(t), plans, HasState(t, kept), Task(s, key));
  }

  /** Where the rules give no directory two paths, no declared child scope goes unnoticed if and only if, as far as its
      state directory resolves inside the root, its own does too and the walk does not skip its names. */
  lemma {:induction false} NoticedByName(t: Tree, kept: set<RealPath>, plans: Plans, s: seq<string>, key: Key)
    requires UniqueListings(t) && OnePath(t) && kept <= t.states && Declares(t, plans, s, key)
    ensures Reported(t, plans, s, key) || Missed(t, kept, plans, s, key) <==>
      (ChildKept(t, kept, s, key) ==> t.root <= ChildDir(t, s, key).value && WalkedAll(Parts(key)))
  {
    hide UniqueNames, OnePath, Walks, Reported, Missed, WalkedAll;
    NoticedExactly(t, kept, plans, s, key);
    ChildAccepted(t, plans, s, key);
    ChildWalked(t, s, Parts(key));
  }

  // ----- which item keys are safe to use

  /** State directories are no symlinks. */
  ghost predicate PlainStates(t: Tree, kept: set<RealPath>) {
    kept == set d | d in t.states && t.root <= d
  }

  /** A child with an item key is noticed in every tree, under every plan that declares it. */
  ghost predicate AlwaysNoticed(step: string, item: string) {
    var key := OutputProjection.TaskKey(step, Some(item));
    forall t: Tree, kept: set<RealPath>, plans: Plans, s: seq<string> |
      UniqueListings(t) && OnePath(t) && PlainStates(t, kept) && Declares(t, plans, s, key) ::
      NoticedIn(t, kept, plans, s, key)
  }

  ghost predicate NoticedIn(t: Tree, kept: set<RealPath>, plans: Plans, s: seq<string>, key: Key)
    requires Valid(t)
  {
    Reported(t, plans, s, key) || Missed(t, kept, plans, s, key)
  }

  /** A step directory with one item, which has state. */
  function OneItem(step: string, item: string): Tree {
    Tree([], map[[] := [Entry(step, [step])], [step] := [Entry(item, [step, item])], [step, item] := []],
         {[], [step, item]})
  }

  function OneItemPlans(step: string, item: string): Plans {
    path => Plan(if path == [] then [OutputProjection.RecordedStep(step, true, true, [item])] else [])
  }

  lemma {:induction false} OneItemPaths(step: string, item: string)
    requires !(Walked(step) && Walked(item))
    ensures var t := OneItem(step, item);
      && UniqueListings(t) && OnePath(t) && Resolve(t, [], [step, item]) == Some([step, item])
  {
    var t := OneItem(step, item);
    assert [step][0] == step && [step, item][0] == step && |[step, item]| == 2;
    assert t.dirs[[]] == [Entry(step, [step])] && t.dirs[[step]] == [Entry(item, [step, item])];
    forall p: seq<string>, d: RealPath | RulePath(t, [], p, d) ensures p == [] {
      if p != [] {
        var e := RuleHead(t, [], p, d);
        if Walked(step) { var f := ItemHead(t, e.target, p[1..], d); }
      }
    }
    assert [step, item][1..] == [item] && [item][1..] == [];
    assert Resolve(t, [step], [item]) == Some([step, item]);
  }

  lemma {:induction false} RootAccepted(t: Tree, plans: Plans)
    requires UniqueListings(t) && plans([]).Plan?
    ensures [] in AcceptedAfter(Walks(t), PlanSource(plans))
  {
    WalksPrefixFirst(t);
    assert Walk(t)[0] == Scope([], t.root) && Walks(t)[0] == [];
    hide AcceptedAfter, Walks, Walk, UniqueNames, PrefixFirst;
    AcceptedExactly(Walks(t), PlanSource(plans), []);
  }

  lemma {:induction false} OneItemSteps(step: string, item: string)
    requires IsSafeItemKey(item)
    ensures var steps := [OutputProjection.RecordedStep(step, true, true, [item])];
      ValidSteps(steps) && IsChild(steps, OutputProjection.TaskKey(step, Some(item)))
  {
    var steps := [OutputProjection.RecordedStep(step, true, true, [item])];
    assert ChildOfStep(steps[0], OutputProjection.TaskKey(step, Some(item)));
  }

  lemma {:induction false} Unnoticed(step: string, item: string)
    requires !(Walked(step) && Walked(item)) && IsSafeItemKey(item)
    ensures var t := OneItem(step, item);
      && UniqueListings(t) && OnePath(t) && PlainStates(t, t.states)
      && var plans, key := OneItemPlans(step, item), OutputProjection.TaskKey(step, Some(item));
         Declares(t, plans, [], key) && !NoticedIn(t, t.states, plans, [], key)
  {
    var t, plans := OneItem(step, item), OneItemPlans(step, item);
    var key := OutputProjection.TaskKey(step, Some(item));
    OneItemPaths(step, item);
    OneItemSteps(step, item);
    assert [] + Parts(key) == [step, item] && Parts(key)[0] == step && Parts(key)[1] == item;
    assert PlainStates(t, t.states) && ChildKept(t, t.states, [], key) && !WalkedAll(Parts(key));
    hide Walked, Resolve, UniqueListings, OnePath, Reported, Missed, OneItem, AcceptedAfter, Walks, ValidSteps,
         IsChild, IsSafeItemKey;
    RootAccepted(t, plans);
    assert Declares(t, plans, [], key);
    NoticedByName(t, t.states, plans, [], key);
  }

  lemma {:induction false} NoticedPlainly(t: Tree, kept: set<RealPath>, plans: Plans, s: seq<string>, key: Key)
    requires UniqueListings(t) && OnePath(t) && PlainStates(t, kept) && Declares(t, plans, s, key)
    requires WalkedAll(Parts(key))
    ensures NoticedIn(t, kept, plans, s, key)
  {
    hide UniqueNames, OnePath, Reported, Missed, Declares, WalkedAll, ChildDir;
    NoticedByName(t, kept, plans, s, key);
  }

  lemma {:induction false} KeyWalked(step: string, item: string)
    ensures WalkedAll(Parts(OutputProjection.TaskKey(step, Some(item)))) <==> Walked(step) && Walked(item)
  {
    hide Walked;
    var parts := Parts(OutputProjection.TaskKey(step, Some(item)));
    assert |parts| == 2 && parts[0] == step && parts[1] == item;
  }

  ghost predicate HiddenOrWorker(name: string) {
    exists rest :: name == "." + rest || name == "worker-" + rest || name == "slot-" + rest
  }

  lemma {:induction false} SkippedExactly(name: string)
    ensures Walked(name) <==> !HiddenOrWorker(name)
  {
    if "." <= name { assert name == "." + name[1..]; }
    if "worker-" <= name { assert name == "worker-" + name[7..]; }
    if "slot-" <= name { assert name == "slot-" + name[5..]; }
  }

  /** Of the item keys that are safe to use in plans, exactly those that the walk does not skip, under steps that it
      does not skip, are noticed in every tree: any other child with state can be neither accepted nor reported as
      missing. */
  lemma {:induction false} KeyExactly(step: string, item: string)
    requires IsSafeItemKey(item)
    ensures AlwaysNoticed(step, item) <==> !HiddenOrWorker(step) && !HiddenOrWorker(item)
  {
    SkippedExactly(step);
    SkippedExactly(item);
    hide HiddenOrWorker;
    var key := OutputProjection.TaskKey(step, Some(item));
    KeyWalked(step, item);
    hide WalkedAll, Parts, Walked, Resolve, UniqueNames, OnePath, Reported, Missed, Declares, NoticedIn, IsSafeItemKey,
         OneItem;
    if Walked(step) && Walked(item) {
      forall t: Tree, kept: set<RealPath>, plans: Plans, s: seq<string> |
        UniqueListings(t) && OnePath(t) && PlainStates(t, kept) && Declares(t, plans, s, key)
        ensures NoticedIn(t, kept, plans, s, key)
      {
        NoticedPlainly(t, kept, plans, s, key);
      }
    } else {
      Unnoticed(step, item);
    }
  }
}
