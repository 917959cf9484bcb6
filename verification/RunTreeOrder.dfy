/** The walk's order, as the scope acceptance needs it: a path never comes before one of its prefixes. */
module RunTreeOrder {
  import opened Common
  import opened RunTreeWalk
  import Acceptance = ScopeAcceptance

  /** The names in one directory are distinct. */
  ghost predicate UniqueListings(t: Tree) {
    Valid(t) && forall d | d in t.dirs :: UniqueNames(t.dirs[d])
  }

  ghost predicate UniqueNames(entries: seq<Entry>) {
    UniqueBy(entries, (e: Entry) => e.name)
  }

  lemma {:induction false} FilteredUnique(entries: seq<Entry>)
    requires UniqueNames(entries)
    ensures UniqueNames(Filtered(entries))
    decreases entries
  {
    if entries != [] {
      FilteredUnique(entries[1..]);
      var rest := Filtered(entries[1..]);
      forall k | 0 <= k < |rest| ensures rest[k].name != entries[0].name {
        assert rest[k] in entries[1..];
      }
    }
  }

  ghost predicate Ordered(ys: seq<Scope>) {
    forall i, j | 0 <= i < j < |ys| :: !(ys[j].path <= ys[i].path)
  }

  ghost predicate AllUnder(path: Names, ys: seq<Scope>) {
    forall k | 0 <= k < |ys| :: path <= ys[k].path
  }

  ghost predicate UnderSome(path: Names, entries: seq<Entry>, y: Names) {
    exists k | 0 <= k < |entries| :: path + [entries[k].name] <= y
  }

  ghost predicate AllUnderSome(path: Names, entries: seq<Entry>, ys: seq<Scope>) {
    forall k | 0 <= k < |ys| :: UnderSome(path, entries, ys[k].path)
  }

  lemma {:induction false} Apart(path: Names, a: string, b: string, y: Names)
    requires a != b
    ensures !(path + [a] <= y && path + [b] <= y)
  {
    assert path + [a] <= y ==> y[|path|] == a;
    assert path + [b] <= y ==> y[|path|] == b;
  }

  /** What comes out of one entry and of the entries after it does not interleave. */
  lemma {:induction false} OrderedConcat(path: Names, entries: seq<Entry>, ys: seq<Scope>, zs: seq<Scope>)
    requires entries != [] && UniqueNames(entries) && Ordered(ys) && Ordered(zs)
    requires AllUnder(path + [entries[0].name], ys) && AllUnderSome(path, entries[1..], zs)
    ensures Ordered(ys + zs) && AllUnderSome(path, entries, ys + zs)
  {
    forall i, j | 0 <= i < |ys| && 0 <= j < |zs| ensures !(zs[j].path <= ys[i].path) {
      assert UnderSome(path, entries[1..], zs[j].path);
      var k :| 0 <= k < |entries[1..]| && path + [entries[1..][k].name] <= zs[j].path;
      Apart(path, entries[0].name, entries[k + 1].name, ys[i].path);
    }
    forall k | 0 <= k < |ys + zs| ensures UnderSome(path, entries, (ys + zs)[k].path) {
      if k < |ys| {
        assert path + [entries[0].name] <= ys[k].path;
      } else {
        var z := zs[k - |ys|].path;
        assert UnderSome(path, entries[1..], z);
        var i :| 0 <= i < |entries[1..]| && path + [entries[1..][i].name] <= z;
        assert path + [entries[i + 1].name] <= z;
      }
    }
  }

  lemma {:induction false} ScopeOrder(t: Tree, scope: Scope, seen: set<RealPath>)
    requires UniqueListings(t) && scope.dir in t.dirs
    ensures var ys := WalkScope(t, scope, seen).0;
      Ordered(ys) && forall k | 0 <= k < |ys| :: scope.path < ys[k].path
    decreases t.dirs.Keys - seen, 2
  {
    var entries := Children(t, scope.dir);
    FilteredUnique(t.dirs[scope.dir]);
    StepsOrder(t, scope, entries, seen);
    var ys := WalkScope(t, scope, seen).0;
    forall k | 0 <= k < |ys| ensures scope.path < ys[k].path {
      assert UnderSome(scope.path, entries, ys[k].path);
    }
  }

  lemma {:induction false} StepsOrder(t: Tree, scope: Scope, entries: seq<Entry>, seen: set<RealPath>)
    requires UniqueListings(t) && Listed(t, entries) && UniqueNames(entries)
    ensures var ys := WalkSteps(t, scope, entries, seen).0;
      Ordered(ys) && AllUnderSome(scope.path, entries, ys)
    decreases t.dirs.Keys - seen, 1, |entries| + 1
  {
    if entries != [] {
      var step := Below(scope, entries[0]);
      if Claims(t, step.dir, seen) {
        ClaimedOrder(t, step, seen);
      } else {
        ItemsOrderBelow(t, step, seen);
      }
      var (ys, seen1) := WalkStep(t, step, seen);
      StepsOrder(t, scope, entries[1..], seen1);
      OrderedConcat(scope.path, entries, ys, WalkSteps(t, scope, entries[1..], seen1).0);
    }
  }

  lemma {:induction false} ClaimedOrder(t: Tree, scope: Scope, seen: set<RealPath>)
    requires UniqueListings(t) && scope.dir in t.dirs && scope.dir !in seen
    ensures var ys := WalkClaimed(t, scope, seen).0; Ordered(ys) && AllUnder(scope.path, ys)
    decreases t.dirs.Keys - seen, 0, 0
  {
    ScopeOrder(t, scope, seen + {scope.dir});
  }

  lemma {:induction false} ItemsOrderBelow(t: Tree, step: Scope, seen: set<RealPath>)
    requires UniqueListings(t) && step.dir in t.dirs
    ensures var ys := WalkItems(t, step, Children(t, step.dir), seen).0; Ordered(ys) && AllUnder(step.path, ys)
    decreases t.dirs.Keys - seen, 1, 0
  {
    var entries := Children(t, step.dir);
    FilteredUnique(t.dirs[step.dir]);
    ItemsOrder(t, step, entries, seen);
    var ys := WalkItems(t, step, entries, seen).0;
    forall k | 0 <= k < |ys| ensures step.path <= ys[k].path {
      assert UnderSome(step.path, entries, ys[k].path);
    }
  }

  lemma {:induction false} ItemsOrder(t: Tree, step: Scope, entries: seq<Entry>, seen: set<RealPath>)
    requires UniqueListings(t) && Listed(t, entries) && UniqueNames(entries)
    ensures var ys := WalkItems(t, step, entries, seen).0;
      Ordered(ys) && AllUnderSome(step.path, entries, ys)
    decreases t.dirs.Keys - seen, 0, |entries| + 2
  {
    if entries != [] {
      var item := Below(step, entries[0]);
      if Claims(t, item.dir, seen) { ClaimedOrder(t, item, seen); }
      var (ys, seen1) := WalkItem(t, item, seen);
      ItemsOrder(t, step, entries[1..], seen1);
      OrderedConcat(step.path, entries, ys, WalkItems(t, step, entries[1..], seen1).0);
    }
  }

  function PathsOf(ys: seq<Scope>): (r: seq<Names>)
    ensures |r| == |ys| && forall k | 0 <= k < |ys| :: r[k] == ys[k].path
  {
    if ys == [] then [] else [ys[0].path] + PathsOf(ys[1..])
  }

  /** No walk, symlinks or not, yields a path before one of its prefixes or twice: what the scope
      acceptance of the projection relies on. */
  lemma {:induction false} WalkPrefixFirst(t: Tree)
    requires UniqueListings(t)
    ensures Acceptance.PrefixFirst(PathsOf(Walk(t)))
  {
    ScopeOrder(t, Scope([], t.root), {t.root});
  }
}
