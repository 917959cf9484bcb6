/** With symlinks anywhere: the walk yields every path that the one-level and two-level rules give, and no other,
    exactly if the rules reach no directory by two paths. */
module RunTreePaths {
  import opened RunTreeWalk
  import opened RunTreeOrder
  import opened RunTreeProperties
  import opened RunTreeExact

  /** From the scope directory `d` the names lead to the scope directory `to`: through steps that are scopes, and
      steps that are not, each of the latter followed by an item that is one. */
  ghost predicate RulePath(t: Tree, d: RealPath, names: Names, to: RealPath)
    requires Valid(t)
    decreases |names|, 0
  {
    if names == [] then d == to && d in t.dirs
    else d in t.dirs && exists e | e in Children(t, d) && e.name == names[0] :: StepPath(t, e.target, names[1..], to)
  }

  ghost predicate StepPath(t: Tree, step: RealPath, names: Names, to: RealPath)
    requires Valid(t)
    decreases |names|, 1
  {
    step in t.dirs &&
    if IsScope(t, step) then RulePath(t, step, names, to)
    else
      names != [] && exists e | e in Children(t, step) && e.name == names[0] ::
        IsScope(t, e.target) && RulePath(t, e.target, names[1..], to)
  }

  /** The rules reach every directory from the root by one path at most; the root itself by the empty one. */
  ghost predicate OnePath(t: Tree)
    requires Valid(t)
  {
    forall p: Names, q: Names, d: RealPath | RulePath(t, t.root, p, d) && RulePath(t, t.root, q, d) :: p == q
  }

  ghost predicate AllYielded(t: Tree)
    requires Valid(t)
  {
    forall p: Names, d: RealPath | RulePath(t, t.root, p, d) :: Scope(p, d) in Walk(t)
  }

  predicate Enters(t: Tree, d: RealPath, e: Entry, name: string)
    requires Valid(t)
  {
    d in t.dirs && e in Children(t, d) && e.name == name
  }

  lemma {:induction false} RuleNil(t: Tree, d: RealPath, to: RealPath)
    requires Valid(t)
    ensures RulePath(t, d, [], to) <==> d == to && d in t.dirs
  {
  }

  lemma {:induction false} RuleHead(t: Tree, d: RealPath, names: Names, to: RealPath) returns (e: Entry)
    requires Valid(t) && names != [] && RulePath(t, d, names, to)
    ensures Enters(t, d, e, names[0]) && StepPath(t, e.target, names[1..], to)
  {
    e :| e in Children(t, d) && e.name == names[0] && StepPath(t, e.target, names[1..], to);
  }

  lemma {:induction false} RuleFrom(t: Tree, d: RealPath, e: Entry, names: Names, to: RealPath)
    requires Valid(t) && names != [] && Enters(t, d, e, names[0]) && StepPath(t, e.target, names[1..], to)
    ensures RulePath(t, d, names, to)
  {
  }

  lemma {:induction false} ItemHead(t: Tree, step: RealPath, names: Names, to: RealPath) returns (e: Entry)
    requires Valid(t) && !IsScope(t, step) && StepPath(t, step, names, to)
    ensures names != [] && Enters(t, step, e, names[0]) && IsScope(t, e.target) && RulePath(t, e.target, names[1..], to)
  {
    e :| e in Children(t, step) && e.name == names[0] && IsScope(t, e.target) && RulePath(t, e.target, names[1..], to);
  }

  lemma {:induction false} ItemFrom(t: Tree, step: RealPath, e: Entry, names: Names, to: RealPath)
    requires Valid(t) && !IsScope(t, step) && names != [] && Enters(t, step, e, names[0]) && IsScope(t, e.target)
    requires RulePath(t, e.target, names[1..], to)
    ensures StepPath(t, step, names, to)
  {
  }

  lemma {:induction false} RuleConcat(t: Tree, d: RealPath, a: Names, mid: RealPath, b: Names, to: RealPath)
    requires Valid(t) && RulePath(t, d, a, mid) && RulePath(t, mid, b, to)
    ensures RulePath(t, d, a + b, to)
    decreases |a|, 1
  {
    hide RulePath, StepPath, Enters;
    if a == [] {
      RuleNil(t, d, mid);
      assert a + b == b;
    } else {
      var e := RuleHead(t, d, a, mid);
      StepConcat(t, e.target, a[1..], mid, b, to);
      assert (a + b)[1..] == a[1..] + b;
      RuleFrom(t, d, e, a + b, to);
    }
  }

  lemma {:induction false} StepConcat(t: Tree, step: RealPath, a: Names, mid: RealPath, b: Names, to: RealPath)
    requires Valid(t) && StepPath(t, step, a, mid) && RulePath(t, mid, b, to)
    ensures StepPath(t, step, a + b, to)
    decreases |a|, 2
  {
    hide RulePath, Enters;
    if IsScope(t, step) {
      RuleConcat(t, step, a, mid, b, to);
    } else {
      hide StepPath;
      var e := ItemHead(t, step, a, mid);
      RuleConcat(t, e.target, a[1..], mid, b, to);
      assert (a + b)[1..] == a[1..] + b;
      ItemFrom(t, step, e, a + b, to);
    }
  }

  // ----- every directory of a rule path is yielded

  lemma {:induction false} Reached(t: Tree, d: RealPath, names: Names, to: RealPath)
    requires Valid(t) && d in Dirs(Walk(t)) && RulePath(t, d, names, to)
    ensures to in Dirs(Walk(t))
    decreases |names|
  {
    NoDirectoryMissed(t);
    if names != [] {
      var e :| e in Children(t, d) && e.name == names[0] && StepPath(t, e.target, names[1..], to);
      assert Done(t, d, Dirs(Walk(t))) && StepDone(t, e.target, Dirs(Walk(t)));
      if IsScope(t, e.target) {
        Reached(t, e.target, names[1..], to);
      } else {
        var f :| f in Children(t, e.target) && f.name == names[1] && IsScope(t, f.target)
                 && RulePath(t, f.target, names[1..][1..], to);
        Reached(t, f.target, names[1..][1..], to);
      }
    }
  }

  // ----- every yield is a rule path

  /** No directory that has been seen has a rule path that goes through `path`. */
  ghost predicate Unseen(t: Tree, path: Names, seen: set<RealPath>)
    requires Valid(t)
  {
    forall d, p | d in seen && RulePath(t, t.root, p, d) :: !(path <= p)
  }

  ghost predicate UnseenBelow(t: Tree, path: Names, entries: seq<Entry>, seen: set<RealPath>)
    requires Valid(t)
  {
    forall k | 0 <= k < |entries| :: Unseen(t, path + [entries[k].name], seen)
  }

  /** The yields are rule paths through `path` or one of the names below it, and all that has been seen since. */
  ghost predicate Ruled(t: Tree, ys: seq<Scope>, seen: set<RealPath>, seen': set<RealPath>)
    requires Valid(t)
  {
    (forall k | 0 <= k < |ys| :: RulePath(t, t.root, ys[k].path, ys[k].dir)) && seen' <= seen + Dirs(ys)
  }

  lemma {:induction false} ShorterUnseen(t: Tree, path: Names, longer: Names, seen: set<RealPath>)
    requires Valid(t) && Unseen(t, path, seen) && path <= longer
    ensures Unseen(t, longer, seen)
  {
  }

  /** Entering a scope: nothing below it has been seen. */
  lemma {:induction false} EnteredUnseen(t: Tree, scope: Scope, seen: set<RealPath>)
    requires Valid(t) && OnePath(t) && RulePath(t, t.root, scope.path, scope.dir) && scope.dir in t.dirs
    requires Unseen(t, scope.path, seen)
    ensures UnseenBelow(t, scope.path, Children(t, scope.dir), seen + {scope.dir})
  {
    var entries := Children(t, scope.dir);
    forall k | 0 <= k < |entries| ensures Unseen(t, scope.path + [entries[k].name], seen + {scope.dir}) {
      ShorterUnseen(t, scope.path, scope.path + [entries[k].name], seen);
    }
  }

  /** What the first entry yields leaves nothing seen below the others. */
  lemma {:induction false} OthersUnseen(t: Tree, path: Names, entries: seq<Entry>, ys: seq<Scope>, seen: set<RealPath>,
                                        seen': set<RealPath>)
    requires Valid(t) && OnePath(t) && entries != [] && UniqueNames(entries) && UnseenBelow(t, path, entries, seen)
    requires Ruled(t, ys, seen, seen') && AllUnder(path + [entries[0].name], ys)
    ensures UnseenBelow(t, path, entries[1..], seen')
  {
    var rest := entries[1..];
    forall k | 0 <= k < |rest| ensures Unseen(t, path + [rest[k].name], seen') {
      assert rest[k] == entries[k + 1] && Unseen(t, path + [entries[k + 1].name], seen);
      forall d, p | d in seen' && RulePath(t, t.root, p, d) ensures !(path + [rest[k].name] <= p) {
        if d !in seen {
          var y :| y in ys && y.dir == d;
          Apart(path, entries[0].name, rest[k].name, p);
        }
      }
    }
  }

  lemma {:induction false} RuledConcat(t: Tree, ys: seq<Scope>, zs: seq<Scope>, seen: set<RealPath>,
                                       seen1: set<RealPath>, seen2: set<RealPath>)
    requires Valid(t) && Ruled(t, ys, seen, seen1) && Ruled(t, zs, seen1, seen2)
    ensures Ruled(t, ys + zs, seen, seen2)
  {
    DirsConcat(ys, zs);
  }

  lemma {:induction false} OneStep(t: Tree, d: RealPath, e: Entry)
    requires Valid(t) && d in t.dirs && e in Children(t, d) && IsScope(t, e.target)
    ensures RulePath(t, d, [e.name], e.target)
  {
    var names := [e.name];
    assert names[1..] == [] && RulePath(t, e.target, [], e.target);
    assert StepPath(t, e.target, names[1..], e.target);
  }

  lemma {:induction false} TwoSteps(t: Tree, d: RealPath, e: Entry, f: Entry)
    requires Valid(t) && d in t.dirs && e in Children(t, d) && !IsScope(t, e.target)
    requires f in Children(t, e.target) && IsScope(t, f.target)
    ensures RulePath(t, d, [e.name, f.name], f.target)
  {
    var names := [e.name, f.name];
    assert names[1..] == [f.name] && names[1..][1..] == [] && RulePath(t, f.target, [], f.target);
    assert StepPath(t, e.target, names[1..], f.target);
  }

  lemma {:induction false} ScopeRuled(t: Tree, scope: Scope, seen: set<RealPath>)
    requires UniqueListings(t) && OnePath(t) && RulePath(t, t.root, scope.path, scope.dir) && scope.dir in t.dirs
    requires UnseenBelow(t, scope.path, Children(t, scope.dir), seen)
    ensures var (ys, seen') := WalkScope(t, scope, seen); Ruled(t, ys, seen, seen')
    decreases t.dirs.Keys - seen, 2
  {
    FilteredUnique(t.dirs[scope.dir]);
    StepsRuled(t, scope, Children(t, scope.dir), seen);
  }

  lemma {:induction false} StepsRuled(t: Tree, scope: Scope, entries: seq<Entry>, seen: set<RealPath>)
    requires UniqueListings(t) && OnePath(t) && RulePath(t, t.root, scope.path, scope.dir) && scope.dir in t.dirs
    requires UniqueNames(entries) && (forall e | e in entries :: e in Children(t, scope.dir) && e.target in t.dirs)
    requires UnseenBelow(t, scope.path, entries, seen)
    ensures var (ys, seen') := WalkSteps(t, scope, entries, seen); Ruled(t, ys, seen, seen')
    decreases t.dirs.Keys - seen, 1, |entries| + 1
  {
    hide RulePath, IsScope;
    if entries != [] {
      StepRuled(t, scope, entries[0], seen);
      StepUnder(t, Below(scope, entries[0]), seen);
      var (ys, seen1) := WalkStep(t, Below(scope, entries[0]), seen);
      OthersUnseen(t, scope.path, entries, ys, seen, seen1);
      StepsRuled(t, scope, entries[1..], seen1);
      var (zs, seen2) := WalkSteps(t, scope, entries[1..], seen1);
      RuledConcat(t, ys, zs, seen, seen1, seen2);
    }
  }

  lemma {:induction false} StepUnder(t: Tree, step: Scope, seen: set<RealPath>)
    requires UniqueListings(t) && step.dir in t.dirs
    ensures AllUnder(step.path, WalkStep(t, step, seen).0)
  {
    if Claims(t, step.dir, seen) { ClaimedOrder(t, step, seen); } else { ItemsOrderBelow(t, step, seen); }
  }

  lemma {:induction false} StepRuled(t: Tree, scope: Scope, e: Entry, seen: set<RealPath>)
    requires UniqueListings(t) && OnePath(t) && RulePath(t, t.root, scope.path, scope.dir) && scope.dir in t.dirs
    requires e in Children(t, scope.dir) && e.target in t.dirs && Unseen(t, scope.path + [e.name], seen)
    ensures var (ys, seen') := WalkStep(t, Below(scope, e), seen); Ruled(t, ys, seen, seen')
    decreases t.dirs.Keys - seen, 1, 0
  {
    hide RulePath;
    var step := Below(scope, e);
    if IsScope(t, step.dir) {
      OneStep(t, scope.dir, e);
      RuleConcat(t, t.root, scope.path, scope.dir, [e.name], e.target);
      ClaimedRuled(t, step, seen);
    } else {
      var entries := Children(t, step.dir);
      FilteredUnique(t.dirs[step.dir]);
      forall k | 0 <= k < |entries| ensures Unseen(t, step.path + [entries[k].name], seen) {
        ShorterUnseen(t, step.path, step.path + [entries[k].name], seen);
      }
      ItemsRuled(t, scope, e, entries, seen);
    }
  }

  lemma {:induction false} ClaimedRuled(t: Tree, scope: Scope, seen: set<RealPath>)
    requires UniqueListings(t) && OnePath(t) && RulePath(t, t.root, scope.path, scope.dir) && scope.dir in t.dirs
    requires Unseen(t, scope.path, seen)
    ensures scope.dir !in seen
    ensures var (ys, seen') := WalkClaimed(t, scope, seen); Ruled(t, ys, seen, seen')
    decreases t.dirs.Keys - seen, 0, 0
  {
    hide RulePath;
    EnteredUnseen(t, scope, seen);
    ScopeRuled(t, scope, seen + {scope.dir});
    DirsConcat([scope], WalkScope(t, scope, seen + {scope.dir}).0);
  }

  lemma {:induction false} ItemsRuled(t: Tree, scope: Scope, e: Entry, entries: seq<Entry>, seen: set<RealPath>)
    requires UniqueListings(t) && OnePath(t) && RulePath(t, t.root, scope.path, scope.dir) && scope.dir in t.dirs
    requires e in Children(t, scope.dir) && e.target in t.dirs && !IsScope(t, e.target) && UniqueNames(entries)
    requires forall f | f in entries :: f in Children(t, e.target) && f.target in t.dirs
    requires UnseenBelow(t, Below(scope, e).path, entries, seen)
    ensures var (ys, seen') := WalkItems(t, Below(scope, e), entries, seen); Ruled(t, ys, seen, seen')
    decreases t.dirs.Keys - seen, 0, |entries| + 2
  {
    hide RulePath;
    if entries != [] {
      var step := Below(scope, e);
      var item := Below(step, entries[0]);
      if Claims(t, item.dir, seen) {
        TwoSteps(t, scope.dir, e, entries[0]);
        assert scope.path + [e.name, entries[0].name] == item.path;
        RuleConcat(t, t.root, scope.path, scope.dir, [e.name, entries[0].name], item.dir);
        ClaimedRuled(t, item, seen);
        ClaimedOrder(t, item, seen);
      }
      var (ys, seen1) := WalkItem(t, item, seen);
      OthersUnseen(t, step.path, entries, ys, seen, seen1);
      ItemsRuled(t, scope, e, entries[1..], seen1);
      var (zs, seen2) := WalkItems(t, step, entries[1..], seen1);
      RuledConcat(t, ys, zs, seen, seen1, seen2);
    }
  }

  lemma {:induction false} YieldsRuled(t: Tree)
    requires UniqueListings(t) && OnePath(t)
    ensures forall y | y in Walk(t) :: RulePath(t, t.root, y.path, y.dir)
  {
    var root := Scope([], t.root);
    assert RulePath(t, t.root, [], t.root);
    EnteredUnseen(t, root, {});
    assert {} + {t.root} == {t.root};
    ScopeRuled(t, root, {t.root});
  }

  // ----- the exact condition

  lemma {:induction false} YieldedOnce(t: Tree, p: Names, q: Names, d: RealPath)
    requires Valid(t) && Scope(p, d) in Walk(t) && Scope(q, d) in Walk(t)
    ensures p == q
  {
    WalkSafe(t);
    var i :| 0 <= i < |Walk(t)| && Walk(t)[i] == Scope(p, d);
    var j :| 0 <= j < |Walk(t)| && Walk(t)[j] == Scope(q, d);
    assert i == j;
  }

  /** Every path that the rules give is yielded if and only if they give no directory two paths; then nothing else
      is yielded either. */
  lemma {:induction false} LinkedExact(t: Tree)
    requires UniqueListings(t)
    ensures AllYielded(t) <==> OnePath(t)
    ensures OnePath(t) ==>
        forall p: Names, d: RealPath :: Scope(p, d) in Walk(t) <==> RulePath(t, t.root, p, d)
  {
    hide RulePath, Walk;
    if OnePath(t) {
      YieldsRuled(t);
      NoDirectoryMissed(t);
      forall p: Names, d: RealPath | RulePath(t, t.root, p, d) ensures Scope(p, d) in Walk(t) {
        Reached(t, t.root, p, d);
        var y :| y in Walk(t) && y.dir == d;
        assert y == Scope(y.path, d);
      }
    }
    if AllYielded(t) {
      forall p: Names, q: Names, d: RealPath | RulePath(t, t.root, p, d) && RulePath(t, t.root, q, d) ensures p == q {
        YieldedOnce(t, p, q, d);
      }
    }
  }

  /** A symlink that leads from a scope back to it costs some scope its own path. */
  lemma {:induction false} LoopRenames(t: Tree, p: Names, d: RealPath, names: Names)
    requires UniqueListings(t) && RulePath(t, t.root, p, d) && RulePath(t, d, names, d) && names != []
    ensures !AllYielded(t)
  {
    RuleConcat(t, t.root, p, d, names, d);
    LinkedExact(t);
    assert |p + names| != |p|;
  }

  lemma {:induction false} StraightEntry(t: Tree, d: RealPath, e: Entry, names: Names)
    requires SymlinkFree(t) && names != [] && Enters(t, d, e, names[0])
    ensures e.target == d + [names[0]] && e.target + names[1..] == d + names
  {
    ChildrenStraight(t, d);
    assert [names[0]] + names[1..] == names;
  }

  lemma {:induction false} StraightTo(t: Tree, d: RealPath, names: Names, to: RealPath)
    requires SymlinkFree(t) && RulePath(t, d, names, to)
    ensures to == d + names
    decreases |names|, 0
  {
    hide RulePath, StepPath, Enters, UniqueNames;
    if names == [] {
      RuleNil(t, d, to);
    } else {
      var e := RuleHead(t, d, names, to);
      StraightEntry(t, d, e, names);
      StraightStep(t, e.target, names[1..], to);
    }
  }

  lemma {:induction false} StraightStep(t: Tree, step: RealPath, names: Names, to: RealPath)
    requires SymlinkFree(t) && StepPath(t, step, names, to)
    ensures to == step + names
    decreases |names|, 1
  {
    hide RulePath, Enters, UniqueNames;
    if IsScope(t, step) {
      StraightTo(t, step, names, to);
    } else {
      var e := ItemHead(t, step, names, to);
      hide StepPath;
      StraightEntry(t, step, e, names);
      StraightTo(t, e.target, names[1..], to);
    }
  }

  /** Without symlinks every directory has one path. */
  lemma {:induction false} StraightOnePath(t: Tree)
    requires SymlinkFree(t)
    ensures OnePath(t)
  {
    hide RulePath;
    forall p: Names, q: Names, d: RealPath | RulePath(t, t.root, p, d) && RulePath(t, t.root, q, d) ensures p == q {
      StraightTo(t, t.root, p, d);
      StraightTo(t, t.root, q, d);
      assert p == d[|t.root|..] && q == d[|t.root|..];
    }
  }
}
