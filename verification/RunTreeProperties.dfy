/** What the walk guarantees: on any tree, symlink cycles included, it ends, stays inside the root,
    repeats no directory and misses none; without symlinks it is the plain preorder of the scopes. */
module RunTreeProperties {
  import opened RunTreeWalk

  // ----- every yield is sound

  function Dirs(ys: seq<Scope>): set<RealPath> { set y | y in ys :: y.dir }

  lemma {:induction false} DirsConcat(ys: seq<Scope>, zs: seq<Scope>)
    ensures Dirs(ys + zs) == Dirs(ys) + Dirs(zs)
  {
  }

  /** The place that a walked path leads to. */
  ghost predicate Leads(t: Tree, path: Names, d: RealPath)
    decreases |path|
  {
    if path == [] then d == t.root
    else exists parent, e | Leads(t, path[..|path| - 1], parent) ::
      parent in t.dirs && e in t.dirs[parent] && e == Entry(path[|path| - 1], d)
  }

  /** `path` is one or two names below `parent`. */
  predicate ChildOf(parent: Names, path: Names) {
    parent < path && |path| <= |parent| + 2
  }

  /** The scope at `i` comes after the scope one or two names above it. */
  ghost predicate ParentFirst(parent: Names, ys: seq<Scope>, i: nat)
    requires i < |ys|
  {
    ChildOf(parent, ys[i].path) || exists j | 0 <= j < i :: ChildOf(ys[j].path, ys[i].path)
  }

  ghost predicate SoundRun(t: Tree, parent: Names, seen: set<RealPath>, ys: seq<Scope>) {
    && (forall i | 0 <= i < |ys| :: IsScope(t, ys[i].dir) && ys[i].dir !in seen && Leads(t, ys[i].path, ys[i].dir))
    && (forall i, j | 0 <= i < j < |ys| :: ys[i].dir != ys[j].dir)
    && (forall i | 0 <= i < |ys| :: ParentFirst(parent, ys, i))
  }

  lemma {:induction false} SoundConcat(t: Tree, parent: Names, seen: set<RealPath>, ys: seq<Scope>, zs: seq<Scope>)
    requires SoundRun(t, parent, seen, ys) && SoundRun(t, parent, seen + Dirs(ys), zs)
    ensures SoundRun(t, parent, seen, ys + zs)
  {
    forall i | 0 <= i < |ys + zs| ensures ParentFirst(parent, ys + zs, i) {
      if i < |ys| {
        assert ParentFirst(parent, ys, i);
        if j :| 0 <= j < i && ChildOf(ys[j].path, ys[i].path) { assert (ys + zs)[j] == ys[j]; }
      } else {
        assert ParentFirst(parent, zs, i - |ys|);
        if j :| 0 <= j < i - |ys| && ChildOf(zs[j].path, zs[i - |ys|].path) { assert (ys + zs)[|ys| + j] == zs[j]; }
      }
    }
    forall i, j | 0 <= i < j < |ys + zs| ensures (ys + zs)[i].dir != (ys + zs)[j].dir {
      if i < |ys| <= j { assert ys[i].dir in Dirs(ys); }
    }
  }

  lemma {:induction false} LeadsBelow(t: Tree, scope: Scope, e: Entry)
    requires Leads(t, scope.path, scope.dir) && scope.dir in t.dirs && e in t.dirs[scope.dir]
    ensures Leads(t, Below(scope, e).path, e.target)
  {
    var path := Below(scope, e).path;
    assert path[..|path| - 1] == scope.path;
  }

  ghost predicate ListedIn(t: Tree, d: RealPath, entries: seq<Entry>) {
    d in t.dirs && forall k | 0 <= k < |entries| :: entries[k] in t.dirs[d] && entries[k].target in t.dirs
  }

  lemma {:induction false} ScopeSound(t: Tree, scope: Scope, seen: set<RealPath>)
    requires Valid(t) && scope.dir in t.dirs && Leads(t, scope.path, scope.dir)
    ensures var (ys, seen') := WalkScope(t, scope, seen);
      SoundRun(t, scope.path, seen, ys) && seen' == seen + Dirs(ys)
    decreases t.dirs.Keys - seen, 2
  {
    StepsSound(t, scope, Children(t, scope.dir), seen);
  }

  lemma {:induction false} StepsSound(t: Tree, scope: Scope, entries: seq<Entry>, seen: set<RealPath>)
    requires Valid(t) && ListedIn(t, scope.dir, entries) && Leads(t, scope.path, scope.dir)
    ensures var (ys, seen') := WalkSteps(t, scope, entries, seen);
      SoundRun(t, scope.path, seen, ys) && seen' == seen + Dirs(ys)
    decreases t.dirs.Keys - seen, 1, |entries|
  {
    if entries != [] {
      var step := Below(scope, entries[0]);
      LeadsBelow(t, scope, entries[0]);
      StepSound(t, scope.path, step, seen);
      var (ys, seen1) := WalkStep(t, step, seen);
      StepsSound(t, scope, entries[1..], seen1);
      var zs := WalkSteps(t, scope, entries[1..], seen1).0;
      DirsConcat(ys, zs);
      SoundConcat(t, scope.path, seen, ys, zs);
    }
  }

  lemma {:induction false} StepSound(t: Tree, parent: Names, step: Scope, seen: set<RealPath>)
    requires Valid(t) && step.dir in t.dirs && Leads(t, step.path, step.dir)
    requires step.path != [] && step.path[..|step.path| - 1] == parent
    ensures var (ys, seen') := WalkStep(t, step, seen);
      SoundRun(t, parent, seen, ys) && seen' == seen + Dirs(ys)
    decreases t.dirs.Keys - seen, 1, 0
  {
    if Claims(t, step.dir, seen) {
      ClaimedSound(t, parent, step, seen);
    } else {
      ItemsSound(t, parent, step, Children(t, step.dir), seen);
    }
  }

  lemma {:induction false} ClaimedSound(t: Tree, parent: Names, scope: Scope, seen: set<RealPath>)
    requires Valid(t) && scope.dir in t.dirs && Leads(t, scope.path, scope.dir)
    requires Claims(t, scope.dir, seen) && parent < scope.path && |scope.path| <= |parent| + 2
    ensures var (ys, seen') := WalkClaimed(t, scope, seen);
      SoundRun(t, parent, seen, ys) && seen' == seen + Dirs(ys)
    decreases t.dirs.Keys - seen, 0, 0
  {
    var seen1 := seen + {scope.dir};
    ScopeSound(t, scope, seen1);
    var ys := WalkScope(t, scope, seen1).0;
    UnderScope(t, parent, scope, seen, ys);
    DirsConcat([scope], ys);
  }

  lemma {:induction false} UnderScope(t: Tree, parent: Names, scope: Scope, seen: set<RealPath>, ys: seq<Scope>)
    requires Leads(t, scope.path, scope.dir) && Claims(t, scope.dir, seen) && ChildOf(parent, scope.path)
    requires SoundRun(t, scope.path, seen + {scope.dir}, ys)
    ensures SoundRun(t, parent, seen, [scope] + ys)
  {
    var zs := [scope] + ys;
    forall i | 0 <= i < |zs| ensures ParentFirst(parent, zs, i) {
      if i > 0 {
        assert ParentFirst(scope.path, ys, i - 1);
        if ChildOf(scope.path, ys[i - 1].path) {
          assert ChildOf(zs[0].path, zs[i].path);
        } else {
          var j :| 0 <= j < i - 1 && ChildOf(ys[j].path, ys[i - 1].path);
          assert ChildOf(zs[j + 1].path, zs[i].path);
        }
      }
    }
  }

  lemma {:induction false} ItemsSound(t: Tree, parent: Names, step: Scope, entries: seq<Entry>, seen: set<RealPath>)
    requires Valid(t) && ListedIn(t, step.dir, entries) && Leads(t, step.path, step.dir)
    requires step.path != [] && step.path[..|step.path| - 1] == parent
    ensures var (ys, seen') := WalkItems(t, step, entries, seen);
      SoundRun(t, parent, seen, ys) && seen' == seen + Dirs(ys)
    decreases t.dirs.Keys - seen, 0, |entries|
  {
    if entries != [] {
      var item := Below(step, entries[0]);
      LeadsBelow(t, step, entries[0]);
      var claims := Claims(t, item.dir, seen);
      if claims {
        assert item.path[..|parent|] == parent;
        ClaimedSound(t, parent, item, seen);
      }
      var (ys, seen1) := if claims then WalkClaimed(t, item, seen) else ([], seen);
      assert seen1 == seen + Dirs(ys);
      ItemsSound(t, parent, step, entries[1..], seen1);
      var zs := WalkItems(t, step, entries[1..], seen1).0;
      DirsConcat(ys, zs);
      SoundConcat(t, parent, seen, ys, zs);
    }
  }

  /** On every tree, with symlinks anywhere: each yielded scope below the root has a state directory
      inside the root, its path leads there, no directory is yielded twice, and a scope comes after the
      scope one or two names above it. */
  lemma {:induction false} WalkSafe(t: Tree)
    requires Valid(t)
    ensures Walk(t)[0] == Scope([], t.root)
    ensures forall i | 0 < i < |Walk(t)| ::
      IsScope(t, Walk(t)[i].dir) && Leads(t, Walk(t)[i].path, Walk(t)[i].dir)
    ensures forall i, j | 0 <= i < j < |Walk(t)| :: Walk(t)[i].dir != Walk(t)[j].dir
    ensures forall i | 0 < i < |Walk(t)| :: AfterParent(Walk(t), i)
  {
    var root := Scope([], t.root);
    ScopeSound(t, root, {t.root});
    var ys := WalkScope(t, root, {t.root}).0;
    ParentsYielded(t, root, ys);
  }

  ghost predicate AfterParent(ys: seq<Scope>, i: nat)
    requires i < |ys|
  {
    exists j | 0 <= j < i :: ChildOf(ys[j].path, ys[i].path)
  }

  lemma {:induction false} ParentsYielded(t: Tree, scope: Scope, ys: seq<Scope>)
    requires SoundRun(t, scope.path, {scope.dir}, ys)
    ensures forall i | 0 < i <= |ys| :: AfterParent([scope] + ys, i)
  {
    var zs := [scope] + ys;
    forall i | 0 < i < |zs| ensures AfterParent(zs, i) {
      assert ParentFirst(scope.path, ys, i - 1);
      if ChildOf(scope.path, ys[i - 1].path) {
        assert ChildOf(zs[0].path, zs[i].path);
      } else {
        var j :| 0 <= j < i - 1 && ChildOf(ys[j].path, ys[i - 1].path);
        assert ChildOf(zs[j + 1].path, zs[i].path);
      }
    }
  }
}
