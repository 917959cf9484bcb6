/** No scope directory is missed, whatever the symlinks; on trees without symlinks the walk is the plain preorder. */
module RunTreeExact {
  import opened RunTreeWalk
  import opened RunTreeOrder
  import opened RunTreeProperties

  // ----- no scope directory is missed, symlinks or not

  ghost predicate StepDone(t: Tree, step: RealPath, seen: set<RealPath>)
    requires Valid(t)
  {
    step in t.dirs &&
    if IsScope(t, step) then step in seen
    else forall k | 0 <= k < |Children(t, step)| ::
      IsScope(t, Children(t, step)[k].target) ==> Children(t, step)[k].target in seen
  }

  /** Every scope that the one-level or two-level rule finds below `d` has been seen. */
  ghost predicate Done(t: Tree, d: RealPath, seen: set<RealPath>)
    requires Valid(t)
  {
    d in t.dirs && StepsDone(t, Children(t, d), seen)
  }

  ghost predicate StepsDone(t: Tree, entries: seq<Entry>, seen: set<RealPath>)
    requires Valid(t)
  {
    forall k | 0 <= k < |entries| :: StepDone(t, entries[k].target, seen)
  }

  ghost predicate AllDone(t: Tree, ys: seq<Scope>, seen: set<RealPath>)
    requires Valid(t)
  {
    forall k | 0 <= k < |ys| :: Done(t, ys[k].dir, seen)
  }

  lemma {:induction false} DoneGrows(t: Tree, ys: seq<Scope>, entries: seq<Entry>, seen: set<RealPath>,
                                     more: set<RealPath>)
    requires Valid(t) && seen <= more && AllDone(t, ys, seen) && StepsDone(t, entries, seen)
    ensures AllDone(t, ys, more) && StepsDone(t, entries, more)
  {
  }

  lemma {:induction false} ScopeDone(t: Tree, scope: Scope, seen: set<RealPath>)
    requires Valid(t) && scope.dir in t.dirs
    ensures var (ys, seen') := WalkScope(t, scope, seen); AllDone(t, ys, seen') && Done(t, scope.dir, seen')
    decreases t.dirs.Keys - seen, 2
  {
    StepsAreDone(t, scope, Children(t, scope.dir), seen);
  }

  lemma {:induction false} StepsAreDone(t: Tree, scope: Scope, entries: seq<Entry>, seen: set<RealPath>)
    requires Valid(t) && Listed(t, entries)
    ensures var (ys, seen') := WalkSteps(t, scope, entries, seen);
      AllDone(t, ys, seen') && StepsDone(t, entries, seen')
    decreases t.dirs.Keys - seen, 1, |entries|
  {
    if entries != [] {
      var step := Below(scope, entries[0]);
      if Claims(t, step.dir, seen) {
        ClaimedDone(t, step, seen);
      } else {
        ItemsAreDone(t, step, Children(t, step.dir), seen);
      }
      var (ys, seen1) := WalkStep(t, step, seen);
      assert StepDone(t, entries[0].target, seen1);
      StepsAreDone(t, scope, entries[1..], seen1);
      DoneGrows(t, ys, entries[..1], seen1, WalkSteps(t, scope, entries[1..], seen1).1);
    }
  }

  lemma {:induction false} ClaimedDone(t: Tree, scope: Scope, seen: set<RealPath>)
    requires Valid(t) && scope.dir in t.dirs && scope.dir !in seen
    ensures var (ys, seen') := WalkClaimed(t, scope, seen); AllDone(t, ys, seen')
    decreases t.dirs.Keys - seen, 0, 0
  {
    ScopeDone(t, scope, seen + {scope.dir});
  }

  lemma {:induction false} ItemsAreDone(t: Tree, step: Scope, entries: seq<Entry>, seen: set<RealPath>)
    requires Valid(t) && Listed(t, entries)
    ensures var (ys, seen') := WalkItems(t, step, entries, seen);
      && AllDone(t, ys, seen')
      && forall k | 0 <= k < |entries| :: IsScope(t, entries[k].target) ==> entries[k].target in seen'
    decreases t.dirs.Keys - seen, 0, |entries|
  {
    if entries != [] {
      var item := Below(step, entries[0]);
      var claims := Claims(t, item.dir, seen);
      if claims { ClaimedDone(t, item, seen); }
      var (ys, seen1) := if claims then WalkClaimed(t, item, seen) else ([], seen);
      ItemsAreDone(t, step, entries[1..], seen1);
      DoneGrows(t, ys, [], seen1, WalkItems(t, step, entries[1..], seen1).1);
    }
  }

  /** Completeness on every tree: the yielded directories are closed under the one-level and two-level
      rules, so each scope directory that the rules reach from the root is yielded under some path. */
  lemma {:induction false} NoDirectoryMissed(t: Tree)
    requires Valid(t)
    ensures t.root in Dirs(Walk(t))
    ensures forall d | d in Dirs(Walk(t)) :: Done(t, d, Dirs(Walk(t)))
  {
    var root := Scope([], t.root);
    ScopeDone(t, root, {t.root});
    ScopeSound(t, root, {t.root});
    var ys := WalkScope(t, root, {t.root}).0;
    DirsConcat([root], ys);
    assert Dirs([root]) == {t.root};
  }

  // ----- without symlinks

  ghost predicate SymlinkFree(t: Tree) {
    && UniqueListings(t)
    && forall d, k | d in t.dirs && 0 <= k < |t.dirs[d]| :: t.dirs[d][k].target == d + [t.dirs[d][k].name]
  }

  function Beneath(t: Tree, d: RealPath): set<RealPath> {
    set x | x in t.dirs && d < x
  }

  predicate Straight(t: Tree, d: RealPath, entries: seq<Entry>) {
    forall k | 0 <= k < |entries| :: entries[k].target in t.dirs && entries[k].target == d + [entries[k].name]
  }

  lemma {:induction false} ChildrenStraight(t: Tree, d: RealPath)
    requires SymlinkFree(t) && d in t.dirs
    ensures Straight(t, d, Children(t, d)) && UniqueNames(Children(t, d))
  {
    FilteredUnique(t.dirs[d]);
  }

  lemma {:induction false} BeneathShrinks(t: Tree, d: RealPath, name: string)
    requires d + [name] in t.dirs
    ensures Beneath(t, d + [name]) < Beneath(t, d)
  {
    assert d + [name] in Beneath(t, d);
    assert d + [name] !in Beneath(t, d + [name]);
    forall x | x in Beneath(t, d + [name]) ensures x in Beneath(t, d) {
      assert d <= d + [name] < x;
    }
  }

  /** The preorder of the scopes, without any bookkeeping of what has been seen. */
  ghost function PreScope(t: Tree, scope: Scope): seq<Scope>
    requires SymlinkFree(t) && scope.dir in t.dirs
    decreases Beneath(t, scope.dir), 1, 0
  {
    ChildrenStraight(t, scope.dir);
    PreSteps(t, scope, Children(t, scope.dir))
  }

  ghost function PreSteps(t: Tree, scope: Scope, entries: seq<Entry>): seq<Scope>
    requires SymlinkFree(t) && scope.dir in t.dirs && Straight(t, scope.dir, entries)
    decreases Beneath(t, scope.dir), 0, |entries|
  {
    if entries == [] then []
    else
      BeneathShrinks(t, scope.dir, entries[0].name);
      PreStep(t, Below(scope, entries[0])) + PreSteps(t, scope, entries[1..])
  }

  ghost function PreStep(t: Tree, step: Scope): seq<Scope>
    requires SymlinkFree(t) && step.dir in t.dirs
    decreases Beneath(t, step.dir), 2, 0
  {
    ChildrenStraight(t, step.dir);
    if IsScope(t, step.dir) then [step] + PreScope(t, step) else PreItems(t, step, Children(t, step.dir))
  }

  ghost function PreItems(t: Tree, step: Scope, entries: seq<Entry>): seq<Scope>
    requires SymlinkFree(t) && step.dir in t.dirs && Straight(t, step.dir, entries)
    decreases Beneath(t, step.dir), 0, |entries|
  {
    if entries == [] then []
    else
      BeneathShrinks(t, step.dir, entries[0].name);
      var item := Below(step, entries[0]);
      (if IsScope(t, item.dir) then [item] + PreScope(t, item) else []) + PreItems(t, step, entries[1..])
  }

  /** No seen directory is at or below one of the entries. */
  ghost predicate Fresh(entries: seq<Entry>, seen: set<RealPath>) {
    forall s, k | s in seen && 0 <= k < |entries| :: !(entries[k].target <= s)
  }

  /** What is seen in addition is at or below one of the entries. */
  ghost predicate Within(entries: seq<Entry>, seen: set<RealPath>, seen': set<RealPath>) {
    forall s | s in seen' :: s in seen || exists k | 0 <= k < |entries| :: entries[k].target <= s
  }

  /** After the first entry, what has been seen is still clear of the others. */
  lemma {:induction false} FreshTail(t: Tree, d: RealPath, entries: seq<Entry>, seen: set<RealPath>,
                                     seen1: set<RealPath>)
    requires entries != [] && Straight(t, d, entries) && UniqueNames(entries) && Fresh(entries, seen)
    requires forall s | s in seen1 :: s in seen || entries[0].target <= s
    ensures Fresh(entries[1..], seen1)
  {
    forall s, k | s in seen1 && 0 <= k < |entries[1..]| ensures !(entries[1..][k].target <= s) {
      Apart(d, entries[0].name, entries[k + 1].name, s);
    }
  }

  lemma {:induction false} WithinTail(entries: seq<Entry>, seen: set<RealPath>, seen1: set<RealPath>,
                                      seen2: set<RealPath>)
    requires entries != [] && (forall s | s in seen1 :: s in seen || entries[0].target <= s)
    requires Within(entries[1..], seen1, seen2)
    ensures Within(entries, seen, seen2)
  {
    forall s | s in seen2 && s !in seen ensures exists k | 0 <= k < |entries| :: entries[k].target <= s {
      if s !in seen1 {
        var k :| 0 <= k < |entries[1..]| && entries[1..][k].target <= s;
        assert entries[k + 1].target <= s;
      }
    }
  }

  /** Entries of a directory below which nothing has been seen. */
  lemma {:induction false} FreshChildren(t: Tree, d: RealPath, entries: seq<Entry>, seen: set<RealPath>)
    requires Straight(t, d, entries) && forall s | s in seen :: !(d < s)
    ensures Fresh(entries, seen)
  {
    forall s, k | s in seen && 0 <= k < |entries| ensures !(entries[k].target <= s) {
      assert entries[k].target <= s ==> d < s;
    }
  }

  lemma {:induction false} WithinDir(t: Tree, d: RealPath, entries: seq<Entry>, seen: set<RealPath>,
                                     seen': set<RealPath>)
    requires Straight(t, d, entries) && Within(entries, seen, seen')
    ensures forall s | s in seen' :: s in seen || d < s
  {
    forall s | s in seen' && s !in seen ensures d < s {
      var k :| 0 <= k < |entries| && entries[k].target <= s;
    }
  }

  lemma {:induction false} ScopeIsPre(t: Tree, scope: Scope, seen: set<RealPath>)
    requires SymlinkFree(t) && scope.dir in t.dirs && (forall s | s in seen :: !(scope.dir < s))
    ensures var (ys, seen') := WalkScope(t, scope, seen);
      ys == PreScope(t, scope) && forall s | s in seen' :: s in seen || scope.dir < s
    decreases t.dirs.Keys - seen, 2
  {
    var entries := Children(t, scope.dir);
    ChildrenStraight(t, scope.dir);
    FreshChildren(t, scope.dir, entries, seen);
    StepsArePre(t, scope, entries, seen);
    WithinDir(t, scope.dir, entries, seen, WalkSteps(t, scope, entries, seen).1);
  }

  lemma {:induction false} StepsArePre(t: Tree, scope: Scope, entries: seq<Entry>, seen: set<RealPath>)
    requires SymlinkFree(t) && scope.dir in t.dirs && Straight(t, scope.dir, entries) && UniqueNames(entries)
    requires Fresh(entries, seen)
    ensures var (ys, seen') := WalkSteps(t, scope, entries, seen);
      ys == PreSteps(t, scope, entries) && Within(entries, seen, seen')
    decreases t.dirs.Keys - seen, 1, |entries|
  {
    if entries != [] {
      var step := Below(scope, entries[0]);
      StepIsPre(t, step, seen);
      var seen1 := WalkStep(t, step, seen).1;
      FreshTail(t, scope.dir, entries, seen, seen1);
      StepsArePre(t, scope, entries[1..], seen1);
      WithinTail(entries, seen, seen1, WalkSteps(t, scope, entries[1..], seen1).1);
    }
  }

  lemma {:induction false} StepIsPre(t: Tree, step: Scope, seen: set<RealPath>)
    requires SymlinkFree(t) && step.dir in t.dirs && (forall s | s in seen :: !(step.dir <= s))
    ensures var (ys, seen') := WalkStep(t, step, seen);
      ys == PreStep(t, step) && forall s | s in seen' :: s in seen || step.dir <= s
    decreases t.dirs.Keys - seen, 1, 0
  {
    if IsScope(t, step.dir) {
      ScopeIsPre(t, step, seen + {step.dir});
    } else {
      var entries := Children(t, step.dir);
      ChildrenStraight(t, step.dir);
      FreshChildren(t, step.dir, entries, seen);
      ItemsArePre(t, step, entries, seen);
      WithinDir(t, step.dir, entries, seen, WalkItems(t, step, entries, seen).1);
    }
  }

  lemma {:induction false} ItemsArePre(t: Tree, step: Scope, entries: seq<Entry>, seen: set<RealPath>)
    requires SymlinkFree(t) && step.dir in t.dirs && Straight(t, step.dir, entries) && UniqueNames(entries)
    requires Fresh(entries, seen)
    ensures var (ys, seen') := WalkItems(t, step, entries, seen);
      ys == PreItems(t, step, entries) && Within(entries, seen, seen')
    decreases t.dirs.Keys - seen, 0, |entries|
  {
    if entries != [] {
      var item := Below(step, entries[0]);
      assert item.dir !in seen;
      var scoped := IsScope(t, item.dir);
      if scoped { ScopeIsPre(t, item, seen + {item.dir}); }
      var seen1 := if scoped then WalkClaimed(t, item, seen).1 else seen;
      FreshTail(t, step.dir, entries, seen, seen1);
      ItemsArePre(t, step, entries[1..], seen1);
      WithinTail(entries, seen, seen1, WalkItems(t, step, entries[1..], seen1).1);
    }
  }

  // ----- which paths are scopes

  ghost predicate Lists(t: Tree, d: RealPath, name: string)
    requires Valid(t)
  {
    d in t.dirs && exists e :: e in Children(t, d) && e.name == name
  }

  /** `rest`, read from the directory `d`, splits into steps that are scopes and steps that are not,
      each of the latter followed by an item that is one. */
  ghost predicate IsScopePath(t: Tree, d: RealPath, rest: Names)
    requires Valid(t)
    decreases |rest|
  {
    rest == [] ||
    (var step := d + [rest[0]];
     && Lists(t, d, rest[0])
     && if IsScope(t, step) then IsScopePath(t, step, rest[1..])
        else |rest| > 1 && Lists(t, step, rest[1]) && IsScope(t, step + [rest[1]])
             && IsScopePath(t, step + [rest[1]], rest[2..]))
  }

  function Extended(scope: Scope, rest: Names): Scope {
    Scope(scope.path + rest, scope.dir + rest)
  }

  lemma {:induction false} ExtendedBelow(scope: Scope, e: Entry, rest: Names)
    requires e.target == scope.dir + [e.name] && rest != [] && rest[0] == e.name
    ensures Extended(Below(scope, e), rest[1..]) == Extended(scope, rest)
  {
    assert [rest[0]] + rest[1..] == rest;
    assert scope.path + [e.name] + rest[1..] == scope.path + rest;
    assert scope.dir + [e.name] + rest[1..] == scope.dir + rest;
  }

  lemma {:induction false} PreComplete(t: Tree, scope: Scope, rest: Names)
    requires SymlinkFree(t) && scope.dir in t.dirs && rest != [] && IsScopePath(t, scope.dir, rest)
    ensures Extended(scope, rest) in PreScope(t, scope)
    decreases |rest|, 1
  {
    var k :| 0 <= k < |Children(t, scope.dir)| && Children(t, scope.dir)[k].name == rest[0];
    ChildrenStraight(t, scope.dir);
    var step := Below(scope, Children(t, scope.dir)[k]);
    ExtendedBelow(scope, Children(t, scope.dir)[k], rest);
    InSteps(t, scope, Children(t, scope.dir), k, Extended(scope, rest));
    if IsScope(t, step.dir) {
      if rest[1..] == [] {
        assert Extended(step, []) == step;
      } else {
        PreComplete(t, step, rest[1..]);
      }
    } else {
      ItemComplete(t, step, rest[1..]);
    }
  }

  lemma {:induction false} ItemComplete(t: Tree, step: Scope, rest: Names)
    requires SymlinkFree(t) && step.dir in t.dirs && rest != [] && Lists(t, step.dir, rest[0])
    requires IsScope(t, step.dir + [rest[0]]) && IsScopePath(t, step.dir + [rest[0]], rest[1..])
    ensures Extended(step, rest) in PreItems(t, step, (ChildrenStraight(t, step.dir); Children(t, step.dir)))
    decreases |rest|, 0
  {
    ChildrenStraight(t, step.dir);
    var entries := Children(t, step.dir);
    var k :| 0 <= k < |entries| && entries[k].name == rest[0];
    var item := Below(step, entries[k]);
    ExtendedBelow(step, entries[k], rest);
    if rest[1..] == [] {
      assert Extended(item, []) == item;
    } else {
      PreComplete(t, item, rest[1..]);
    }
    InItems(t, step, entries, k, Extended(step, rest));
  }

  lemma {:induction false} InSteps(t: Tree, scope: Scope, entries: seq<Entry>, k: nat, y: Scope)
    requires SymlinkFree(t) && scope.dir in t.dirs && Straight(t, scope.dir, entries) && k < |entries|
    ensures y in PreStep(t, Below(scope, entries[k])) ==> y in PreSteps(t, scope, entries)
    decreases entries
  {
    if k > 0 { InSteps(t, scope, entries[1..], k - 1, y); }
  }

  lemma {:induction false} InItems(t: Tree, step: Scope, entries: seq<Entry>, k: nat, y: Scope)
    requires SymlinkFree(t) && step.dir in t.dirs && Straight(t, step.dir, entries) && k < |entries|
    ensures var item := Below(step, entries[k]);
      IsScope(t, item.dir) && (y == item || y in PreScope(t, item)) ==> y in PreItems(t, step, entries)
    decreases entries
  {
    if k > 0 { InItems(t, step, entries[1..], k - 1, y); }
  }

  /** A path that a yielded scope has relative to `scope`. */
  ghost predicate Named(t: Tree, scope: Scope, y: Scope, rest: Names)
    requires Valid(t)
  {
    rest != [] && y == Extended(scope, rest) && IsScopePath(t, scope.dir, rest)
  }

  lemma {:induction false} PreSound(t: Tree, scope: Scope, y: Scope) returns (rest: Names)
    requires SymlinkFree(t) && scope.dir in t.dirs && y in PreScope(t, scope)
    ensures Named(t, scope, y, rest)
    decreases Beneath(t, scope.dir), 1, 0
  {
    ChildrenStraight(t, scope.dir);
    rest := StepsSoundly(t, scope, Children(t, scope.dir), y);
  }

  lemma {:induction false} StepsSoundly(t: Tree, scope: Scope, entries: seq<Entry>, y: Scope) returns (rest: Names)
    requires SymlinkFree(t) && scope.dir in t.dirs && Straight(t, scope.dir, entries)
    requires (forall k | 0 <= k < |entries| :: entries[k] in Children(t, scope.dir))
    requires y in PreSteps(t, scope, entries)
    ensures Named(t, scope, y, rest)
    decreases Beneath(t, scope.dir), 0, |entries|
  {
    var e := entries[0];
    var step := Below(scope, e);
    BeneathShrinks(t, scope.dir, e.name);
    if y !in PreStep(t, step) {
      rest := StepsSoundly(t, scope, entries[1..], y);
    } else if IsScope(t, step.dir) {
      if y == step {
        rest := [e.name];
      } else {
        var more := PreSound(t, step, y);
        rest := [e.name] + more;
        assert rest[1..] == more;
        ExtendedBelow(scope, e, rest);
      }
    } else {
      ChildrenStraight(t, step.dir);
      var more := ItemsSoundly(t, step, Children(t, step.dir), y);
      rest := [e.name] + more;
      assert rest[1..] == more && rest[2..] == more[1..];
      ExtendedBelow(scope, e, rest);
    }
  }

  lemma {:induction false} ItemsSoundly(t: Tree, step: Scope, entries: seq<Entry>, y: Scope) returns (rest: Names)
    requires SymlinkFree(t) && step.dir in t.dirs && Straight(t, step.dir, entries)
    requires (forall k | 0 <= k < |entries| :: entries[k] in Children(t, step.dir))
    requires y in PreItems(t, step, entries)
    ensures rest != [] && y == Extended(step, rest) && Lists(t, step.dir, rest[0])
    ensures IsScope(t, step.dir + [rest[0]]) && IsScopePath(t, step.dir + [rest[0]], rest[1..])
    decreases Beneath(t, step.dir), 0, |entries|
  {
    var e := entries[0];
    var item := Below(step, e);
    BeneathShrinks(t, step.dir, e.name);
    if IsScope(t, item.dir) && y == item {
      rest := [e.name];
    } else if IsScope(t, item.dir) && y in PreScope(t, item) {
      var more := PreSound(t, item, y);
      rest := [e.name] + more;
      assert rest[1..] == more;
      ExtendedBelow(step, e, rest);
    } else {
      rest := ItemsSoundly(t, step, entries[1..], y);
    }
  }

  /** On a tree without symlinks the walk yields the preorder of the scopes, and a path is yielded if
      and only if it splits by the one-level and two-level rules. */
  lemma {:induction false} WalkExact(t: Tree)
    requires SymlinkFree(t)
    ensures Walk(t) == [Scope([], t.root)] + PreScope(t, Scope([], t.root))
    ensures forall path: Names :: Scope(path, t.root + path) in Walk(t) <==> IsScopePath(t, t.root, path)
    ensures forall y | y in Walk(t) :: y.dir == t.root + y.path
  {
    var root := Scope([], t.root);
    ScopeIsPre(t, root, {t.root});
    forall y | y in Walk(t)
      ensures y.dir == t.root + y.path && IsScopePath(t, t.root, y.path)
    {
      if y == root {
        assert t.root + [] == t.root;
      } else {
        var rest := PreSound(t, root, y);
        assert [] + rest == rest;
      }
    }
    forall path: Names | IsScopePath(t, t.root, path) ensures Scope(path, t.root + path) in Walk(t) {
      if path == [] {
        assert t.root + [] == t.root;
      } else {
        PreComplete(t, root, path);
        assert [] + path == path;
      }
    }
  }
}
