/** The walk over a run tree (src/metaproc/paths.py, `iter_composite_run_dirs`): scopes are found under
    `<scope>/<step>` or `<scope>/<step>/<item>`, over directories whose entries may be symlinks. */
module RunTreeWalk {

  type RealPath = seq<string>  // a resolved absolute path
  type Names = seq<string>     // a path below the run directory, as walked

  /** An entry of a directory that is itself a directory, and the place it resolves to. */
  datatype Entry = Entry(name: string, target: RealPath)

  /** The resolved run directory, the sorted listings of all directories, and the directories that hold
      a `.state` directory.  A directory that cannot be listed has an empty listing. */
  datatype Tree = Tree(root: RealPath, dirs: map<RealPath, seq<Entry>>, states: set<RealPath>)

  datatype Scope = Scope(path: Names, dir: RealPath)

  predicate Valid(t: Tree) {
    && t.root in t.dirs
    && forall d, k | d in t.dirs && 0 <= k < |t.dirs[d]| :: t.dirs[d][k].target in t.dirs
  }

  predicate StartsWith(name: string, prefix: string) {
    prefix <= name
  }

  /** `.state` and `.logs` are among the names with a leading dot. */
  predicate Walked(name: string) {
    !StartsWith(name, ".") && !StartsWith(name, "worker-") && !StartsWith(name, "slot-")
  }

  function Children(t: Tree, d: RealPath): (r: seq<Entry>)
    requires Valid(t) && d in t.dirs
    ensures forall k | 0 <= k < |r| :: Walked(r[k].name) && r[k] in t.dirs[d] && r[k].target in t.dirs
  {
    Filtered(t.dirs[d])
  }

  function Filtered(entries: seq<Entry>): (r: seq<Entry>)
    ensures forall k | 0 <= k < |r| :: Walked(r[k].name) && r[k] in entries
  {
    if entries == [] then []
    else (if Walked(entries[0].name) then [entries[0]] else []) + Filtered(entries[1..])
  }

  function Below(scope: Scope, e: Entry): Scope {
    Scope(scope.path + [e.name], e.target)
  }

  /** `_claim_scope`, before the directory is added to `seen`. */
  predicate IsScope(t: Tree, d: RealPath) {
    d in t.states && t.root <= d
  }

  predicate Claims(t: Tree, d: RealPath, seen: set<RealPath>) {
    IsScope(t, d) && d !in seen
  }

  predicate Listed(t: Tree, entries: seq<Entry>) {
    forall k | 0 <= k < |entries| :: entries[k].target in t.dirs
  }

  // ----- what the walk yields, and which directories it has seen after that

  function WalkScope(t: Tree, scope: Scope, seen: set<RealPath>): (r: (seq<Scope>, set<RealPath>))
    requires Valid(t) && scope.dir in t.dirs
    ensures seen <= r.1
    decreases t.dirs.Keys - seen, 2
  {
    WalkSteps(t, scope, Children(t, scope.dir), seen)
  }

  function WalkSteps(t: Tree, scope: Scope, entries: seq<Entry>, seen: set<RealPath>):
      (r: (seq<Scope>, set<RealPath>))
    requires Valid(t) && Listed(t, entries)
    ensures seen <= r.1
    decreases t.dirs.Keys - seen, 1, |entries| + 1
  {
    if entries == [] then ([], seen)
    else
      var (ys, seen1) := WalkStep(t, Below(scope, entries[0]), seen);
      var (zs, seen2) := WalkSteps(t, scope, entries[1..], seen1);
      (ys + zs, seen2)
  }

  /** A step directory that is a scope is yielded and walked; any other is searched for items. */
  function WalkStep(t: Tree, step: Scope, seen: set<RealPath>): (r: (seq<Scope>, set<RealPath>))
    requires Valid(t) && step.dir in t.dirs
    ensures seen <= r.1
    decreases t.dirs.Keys - seen, 1, 0
  {
    if Claims(t, step.dir, seen) then WalkClaimed(t, step, seen)
    else WalkItems(t, step, Children(t, step.dir), seen)
  }

  function WalkClaimed(t: Tree, scope: Scope, seen: set<RealPath>): (r: (seq<Scope>, set<RealPath>))
    requires Valid(t) && scope.dir in t.dirs && scope.dir !in seen
    ensures seen + {scope.dir} <= r.1
    decreases t.dirs.Keys - seen, 0, 0
  {
    var (ys, seen1) := WalkScope(t, scope, seen + {scope.dir});
    ([scope] + ys, seen1)
  }

  function WalkItem(t: Tree, item: Scope, seen: set<RealPath>): (r: (seq<Scope>, set<RealPath>))
    requires Valid(t) && item.dir in t.dirs
    ensures seen <= r.1
    decreases t.dirs.Keys - seen, 0, 1
  {
    if Claims(t, item.dir, seen) then WalkClaimed(t, item, seen) else ([], seen)
  }

  function WalkItems(t: Tree, step: Scope, entries: seq<Entry>, seen: set<RealPath>):
      (r: (seq<Scope>, set<RealPath>))
    requires Valid(t) && Listed(t, entries)
    ensures seen <= r.1
    decreases t.dirs.Keys - seen, 0, |entries| + 2
  {
    if entries == [] then ([], seen)
    else
      var (ys, seen1) := WalkItem(t, Below(step, entries[0]), seen);
      var (zs, seen2) := WalkItems(t, step, entries[1..], seen1);
      (ys + zs, seen2)
  }

  /** The whole walk; a run directory that is no directory or cannot be resolved has an empty listing. */
  function Walk(t: Tree): seq<Scope>
    requires Valid(t)
  {
    [Scope([], t.root)] + WalkScope(t, Scope([], t.root), {t.root}).0
  }

  lemma {:induction false} StepsFrom(t: Tree, scope: Scope, entries: seq<Entry>, k: nat, seen: set<RealPath>)
    requires Valid(t) && Listed(t, entries) && k <= |entries|
    ensures WalkSteps(t, scope, entries[k..], seen) ==
      if k == |entries| then ([], seen)
      else
        var (ys, seen1) := WalkStep(t, Below(scope, entries[k]), seen);
        var (zs, seen2) := WalkSteps(t, scope, entries[k + 1..], seen1);
        (ys + zs, seen2)
  {
    if k < |entries| { assert entries[k..][1..] == entries[k + 1..]; }
  }

  lemma {:induction false} ItemsFrom(t: Tree, step: Scope, entries: seq<Entry>, k: nat, seen: set<RealPath>)
    requires Valid(t) && Listed(t, entries) && k <= |entries|
    ensures WalkItems(t, step, entries[k..], seen) ==
      if k == |entries| then ([], seen)
      else
        var (ys, seen1) := WalkItem(t, Below(step, entries[k]), seen);
        var (zs, seen2) := WalkItems(t, step, entries[k + 1..], seen1);
        (ys + zs, seen2)
  {
    if k < |entries| { assert entries[k..][1..] == entries[k + 1..]; }
  }

  // ----- the generators, with the shared `seen` set

  class Walker {
    const tree: Tree
    var seen: set<RealPath>
    var yielded: seq<Scope>

    constructor (t: Tree)
      requires Valid(t)
      ensures tree == t && seen == {t.root} && yielded == [Scope([], t.root)]
    {
      tree, seen, yielded := t, {t.root}, [Scope([], t.root)];
    }

    method ClaimScope(candidate: Scope) returns (claimed: bool)
      modifies this
      ensures claimed == Claims(tree, candidate.dir, old(seen))
      ensures seen == if claimed then old(seen) + {candidate.dir} else old(seen)
      ensures yielded == if claimed then old(yielded) + [candidate] else old(yielded)
    {
      claimed := false;
      if candidate.dir !in tree.states { return; }
      if !(tree.root <= candidate.dir) || candidate.dir in seen { return; }
      seen := seen + {candidate.dir};
      yielded := yielded + [candidate];
      claimed := true;
    }

    /** The outer loop of `_walk_scope`. */
    method VisitScope(scope: Scope)
      requires Valid(tree) && scope.dir in tree.dirs
      modifies this
      ensures yielded == old(yielded) + WalkScope(tree, scope, old(seen)).0
      ensures seen == WalkScope(tree, scope, old(seen)).1
      decreases tree.dirs.Keys - seen, 3
    {
      hide WalkSteps, WalkStep;
      var steps := Children(tree, scope.dir);
      ghost var target := WalkSteps(tree, scope, steps, seen);
      for k := 0 to |steps|
        invariant old(seen) <= seen
        invariant old(yielded) + target.0 == yielded + WalkSteps(tree, scope, steps[k..], seen).0
        invariant target.1 == WalkSteps(tree, scope, steps[k..], seen).1
      {
        ghost var was, before := yielded, seen;
        StepsFrom(tree, scope, steps, k, seen);
        VisitStep(Below(scope, steps[k]));
        Regroup(was, WalkStep(tree, Below(scope, steps[k]), before).0,
                WalkSteps(tree, scope, steps[k + 1..], seen).0);
      }
      StepsFrom(tree, scope, steps, |steps|, seen);
    }

    method VisitStep(step: Scope)
      requires Valid(tree) && step.dir in tree.dirs
      modifies this
      ensures yielded == old(yielded) + WalkStep(tree, step, old(seen)).0
      ensures seen == WalkStep(tree, step, old(seen)).1
      decreases tree.dirs.Keys - seen, 2
    {
      var claimed := ClaimScope(step);
      if claimed {
        VisitScope(step);
        Regroup(old(yielded), [step], WalkScope(tree, step, old(seen) + {step.dir}).0);
      } else {
        VisitItems(step);
      }
    }

    /** The inner loop of `_walk_scope`. */
    method VisitItems(step: Scope)
      requires Valid(tree) && step.dir in tree.dirs
      modifies this
      ensures yielded == old(yielded) + WalkItems(tree, step, Children(tree, step.dir), old(seen)).0
      ensures seen == WalkItems(tree, step, Children(tree, step.dir), old(seen)).1
      decreases tree.dirs.Keys - seen, 1
    {
      hide WalkItems, WalkItem;
      var items := Children(tree, step.dir);
      ghost var target := WalkItems(tree, step, items, seen);
      for k := 0 to |items|
        invariant old(seen) <= seen
        invariant old(yielded) + target.0 == yielded + WalkItems(tree, step, items[k..], seen).0
        invariant target.1 == WalkItems(tree, step, items[k..], seen).1
      {
        ghost var was, before := yielded, seen;
        ItemsFrom(tree, step, items, k, seen);
        VisitItem(Below(step, items[k]));
        Regroup(was, WalkItem(tree, Below(step, items[k]), before).0,
                WalkItems(tree, step, items[k + 1..], seen).0);
      }
      ItemsFrom(tree, step, items, |items|, seen);
    }

    method VisitItem(item: Scope)
      requires Valid(tree) && item.dir in tree.dirs
      modifies this
      ensures yielded == old(yielded) + WalkItem(tree, item, old(seen)).0
      ensures seen == WalkItem(tree, item, old(seen)).1
      decreases tree.dirs.Keys - seen, 0
    {
      var claimed := ClaimScope(item);
      if claimed {
        VisitScope(item);
        Regroup(old(yielded), [item], WalkScope(tree, item, old(seen) + {item.dir}).0);
      }
    }
  }

  lemma {:induction false} Regroup(a: seq<Scope>, b: seq<Scope>, c: seq<Scope>)
    ensures a + b + c == a + (b + c)
  {
  }

  /** `iter_composite_run_dirs`, run to the end. */
  method CompositeRunDirs(t: Tree) returns (scopes: seq<Scope>)
    requires Valid(t)
    ensures scopes == Walk(t)
  {
    var walker := new Walker(t);
    walker.VisitScope(Scope([], t.root));
    scopes := walker.yielded;
  }
}
