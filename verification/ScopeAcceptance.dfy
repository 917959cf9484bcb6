/** Which nested scopes of a run tree the projection accepts (src/metaproc/runtime_projection.py): a
    scope path is checked against the plan of its nearest accepted parent, one scope after the other. */
module ScopeAcceptance {
  import opened Common

  type Names = seq<string>

  /** `keys` is empty for a plan that does not record item keys, else the one set of declared keys. */
  datatype PlanStep = PlanStep(id: string, composite: bool, mapped: bool, keys: seq<set<string>>)

  type Steps = seq<PlanStep>

  predicate SafeChar(c: char) {
    'A' <= c <= 'Z' || 'a' <= c <= 'z' || '0' <= c <= '9' || c == '.' || c == '_' || c == '-'
  }

  /** `is_safe_item_key`. */
  predicate IsSafeItemKey(key: string) {
    key != "." && key != ".." && key != "" && forall k | 0 <= k < |key| :: SafeChar(key[k])
  }

  /** `[A-Za-z0-9._-]+` without the two names that lead elsewhere, by code point. */
  lemma {:induction false} SafeKeyExactly(key: string)
    ensures IsSafeItemKey(key) <==> |key| > 0 && key !in [".", ".."] && forall c | c in key ::
      var n := c as int; 48 <= n <= 57 || 65 <= n <= 90 || 97 <= n <= 122 || n in [45, 46, 95]
  {
    assert forall k | 0 <= k < |key| :: key[k] in key;
  }

  function FindStep(steps: Steps, id: string): (r: Option<PlanStep>)
    ensures r.Some? ==> r.value in steps && r.value.id == id
    ensures r.None? ==> forall k | 0 <= k < |steps| :: steps[k].id != id
  {
    if steps == [] then None else if steps[0].id == id then Some(steps[0]) else FindStep(steps[1..], id)
  }

  /** `parts` names a nested scope of a plan: a scalar composite step, or a mapped composite step and
      one of its declared item keys. */
  predicate Segment(steps: Steps, parts: Names) {
    |parts| in {1, 2} &&
    var step := FindStep(steps, parts[0]);
    && step.Some? && step.value.composite
    && if step.value.mapped
       then |parts| == 2 && IsSafeItemKey(parts[1])
            && (step.value.keys == [] || parts[1] in step.value.keys[0])
       else |parts| == 1
  }

  type Accepted = map<Names, Steps>

  /** The accepted path that is the longest proper prefix of `path`. */
  ghost predicate Nearest(accepted: Accepted, parent: Names, path: Names) {
    parent in accepted && parent < path
    && forall q | q in accepted && q < path :: |q| <= |parent|
  }

  /** `_scope_is_declared`; the parent candidates are gathered in a loop and the longest is taken. */
  method ScopeIsDeclared(path: Names, accepted: Accepted) returns (declared: bool)
    ensures declared <==>
      exists parent :: Nearest(accepted, parent, path) && Segment(accepted[parent], path[|parent|..])
  {
    var found, parent := false, [];
    var rest := accepted.Keys;
    while rest != {}
      invariant rest <= accepted.Keys
      invariant found ==> parent in accepted && parent < path
      invariant forall q | q in accepted && q !in rest && q < path :: found && |q| <= |parent|
      decreases rest
    {
      var q :| q in rest;
      if |q| < |path| && path[..|q|] == q && (!found || |parent| < |q|) {
        found, parent := true, q;
      }
      rest := rest - {q};
    }
    if !found { return false; }
    assert Nearest(accepted, parent, path);
    var parts := path[|parent|..];
    forall q | Nearest(accepted, q, path) ensures q == parent { SamePrefix(q, parent, path); }
    if |parts| != 1 && |parts| != 2 { return false; }
    var step := FindStep(accepted[parent], parts[0]);
    if step.None? || !step.value.composite { return false; }
    if !step.value.mapped { return |parts| == 1; }
    declared := |parts| == 2 && IsSafeItemKey(parts[1])
                && (step.value.keys == [] || parts[1] in step.value.keys[0]);
  }

  lemma {:induction false} SamePrefix(p: Names, q: Names, path: Names)
    requires p <= path && q <= path && |p| == |q|
    ensures p == q
  {
    assert p == path[..|p|] && q == path[..|q|];
  }

  // ----- the scan

  ghost predicate Declared(accepted: Accepted, path: Names) {
    exists parent :: Nearest(accepted, parent, path) && Segment(accepted[parent], path[|parent|..])
  }

  /** The plan of a scope, if there is one: a recorded snapshot, or the scope's part of a bundle. */
  type PlanOf = Names -> Option<Steps>

  /** The acceptance part of `scan_task_output_projection`. */
  method AcceptScopes(scopes: seq<Names>, planOf: PlanOf) returns (accepted: Accepted)
    ensures accepted == AcceptedAfter(scopes, planOf)
  {
    accepted := map[];
    for k := 0 to |scopes|
      invariant accepted == AcceptedAfter(scopes[..k], planOf)
    {
      AcceptedSnoc(scopes, k, planOf);
      var declared := scopes[k] == [];
      if !declared { declared := ScopeIsDeclared(scopes[k], accepted); }
      if declared {
        var plan := planOf(scopes[k]);
        if plan.Some? {
          accepted := accepted[scopes[k] := plan.value];
        }
      }
    }
    assert scopes[..|scopes|] == scopes;
  }

  /** The accepted scopes after a walk, with their plans. */
  ghost function AcceptedAfter(scopes: seq<Names>, planOf: PlanOf): Accepted {
    if scopes == [] then map[]
    else
      AcceptOne(AcceptedAfter(scopes[..|scopes| - 1], planOf), scopes[|scopes| - 1], planOf)
  }

  ghost function AcceptOne(before: Accepted, path: Names, planOf: PlanOf): Accepted {
    if (path == [] || Declared(before, path)) && planOf(path).Some?
    then before[path := planOf(path).value] else before
  }

  lemma {:induction false} AcceptedSnoc(scopes: seq<Names>, k: nat, planOf: PlanOf)
    requires k < |scopes|
    ensures AcceptedAfter(scopes[..k + 1], planOf) == AcceptOne(AcceptedAfter(scopes[..k], planOf), scopes[k], planOf)
  {
    assert scopes[..k + 1][..k] == scopes[..k];
  }

  /** No path comes before one of its own prefixes, and none comes twice. */
  ghost predicate PrefixFirst(scopes: seq<Names>) {
    forall i, j | 0 <= i < j < |scopes| :: !(scopes[j] <= scopes[i])
  }

  lemma {:induction false} AcceptedAreScopes(scopes: seq<Names>, planOf: PlanOf)
    ensures forall p | p in AcceptedAfter(scopes, planOf) ::
      p in scopes && planOf(p) == Some(AcceptedAfter(scopes, planOf)[p])
    decreases |scopes|
  {
    if scopes != [] {
      AcceptedAreScopes(scopes[..|scopes| - 1], planOf);
      assert scopes[|scopes| - 1] in scopes;
      assert forall p | p in scopes[..|scopes| - 1] :: p in scopes;
    }
  }

  /** Every accepted path but the root's continues its nearest accepted parent by one segment of the
      parent's plan. */
  lemma {:induction false} AcceptedSegment(scopes: seq<Names>, planOf: PlanOf, path: Names)
    requires PrefixFirst(scopes) && path in AcceptedAfter(scopes, planOf)
    ensures path != [] ==> Declared(AcceptedAfter(scopes, planOf), path)
    decreases |scopes|
  {
    if path != [] {
      var n := |scopes| - 1;
      var init, last := scopes[..n], scopes[n];
      var before, after := AcceptedAfter(init, planOf), AcceptedAfter(scopes, planOf);
      AcceptedAreScopes(init, planOf);
      if path in before {
        AcceptedSegment(init, planOf, path);
        var k :| 0 <= k < n && init[k] == path;
        assert scopes[k] == path && !(last <= path);
      }
      assert path in before || path == last;
      assert Declared(before, path) && !(last < path);
      DeclaredStays(before, after, last, path);
    }
  }

  /** Accepting another scope that is no prefix of `path` does not change its declaration. */
  lemma {:induction false} DeclaredStays(before: Accepted, after: Accepted, last: Names, path: Names)
    requires Declared(before, path) && !(last < path)
    requires forall q | q != last :: (q in after <==> q in before) && (q in before ==> after[q] == before[q])
    ensures Declared(after, path)
  {
    var parent :| Nearest(before, parent, path) && Segment(before[parent], path[|parent|..]);
    assert Nearest(after, parent, path);
  }

  /** What is accepted early stays accepted with the same plan, and nothing earlier is added later. */
  lemma {:induction false} AcceptedPrefix(scopes: seq<Names>, planOf: PlanOf, k: nat, p: Names)
    requires PrefixFirst(scopes) && k <= |scopes|
    requires p in scopes[..k]
    ensures p in AcceptedAfter(scopes, planOf) <==> p in AcceptedAfter(scopes[..k], planOf)
    decreases |scopes|
  {
    hide AcceptedAfter;
    var n := |scopes| - 1;
    if k <= n {
      AcceptedSnoc(scopes, n, planOf);
      assert scopes[..n + 1] == scopes;
      var j :| 0 <= j < k && scopes[..k][j] == p;
      assert scopes[j] == p != scopes[n];
      assert scopes[..n][..k] == scopes[..k];
      AcceptedPrefix(scopes[..n], planOf, k, p);
    } else {
      assert scopes[..k] == scopes;
    }
  }

  /** Acceptance does not depend on the order of the walk: a walked scope is accepted if and only if it is the root or
      declared by its nearest accepted parent, and has a plan. */
  lemma {:induction false} AcceptedExactly(scopes: seq<Names>, planOf: PlanOf, path: Names)
    requires PrefixFirst(scopes) && path in scopes
    ensures path in AcceptedAfter(scopes, planOf) <==>
      (path == [] || Declared(AcceptedAfter(scopes, planOf), path)) && planOf(path).Some?
  {
    hide AcceptedAfter;
    var k :| 0 <= k < |scopes| && scopes[k] == path;
    var before, after := AcceptedAfter(scopes[..k], planOf), AcceptedAfter(scopes, planOf);
    AcceptedSnoc(scopes, k, planOf);
    AcceptedAreScopes(scopes, planOf);
    AcceptedAreScopes(scopes[..k], planOf);
    assert scopes[..k + 1][k] == path && path in scopes[..k + 1];
    AcceptedPrefix(scopes, planOf, k + 1, path);
    assert path !in scopes[..k];
    if path in after && path != [] { AcceptedSegment(scopes, planOf, path); }
    DeclaredFinally(scopes, planOf, k);
  }

  lemma {:induction false} EarlierPrefix(scopes: seq<Names>, planOf: PlanOf, k: nat, q: Names)
    requires PrefixFirst(scopes) && k < |scopes| && q < scopes[k]
    ensures q in AcceptedAfter(scopes[..k], planOf) <==> q in AcceptedAfter(scopes, planOf)
    ensures q in AcceptedAfter(scopes, planOf) ==>
      && q in AcceptedAfter(scopes[..k], planOf)
      && AcceptedAfter(scopes[..k], planOf)[q] == AcceptedAfter(scopes, planOf)[q]
  {
    hide AcceptedAfter;
    AcceptedAreScopes(scopes, planOf);
    AcceptedAreScopes(scopes[..k], planOf);
    if q in scopes {
      var j :| 0 <= j < |scopes| && scopes[j] == q;
      assert j < k;
      assert scopes[..k][j] == q;
      AcceptedPrefix(scopes, planOf, k, q);
    } else {
      assert forall p | p in scopes[..k] :: p in scopes;
    }
  }

  lemma {:induction false} SameBelow(a: Accepted, b: Accepted, path: Names)
    requires Declared(a, path)
    requires forall q | q < path :: (q in b <==> q in a) && (q in b ==> b[q] == a[q])
    ensures Declared(b, path)
  {
    var parent :| Nearest(a, parent, path) && Segment(a[parent], path[|parent|..]);
    assert Nearest(b, parent, path);
  }

  /** Whether a scope is declared is settled when the walk gets there. */
  lemma {:induction false} DeclaredFinally(scopes: seq<Names>, planOf: PlanOf, k: nat)
    requires PrefixFirst(scopes) && k < |scopes|
    ensures Declared(AcceptedAfter(scopes[..k], planOf), scopes[k]) <==>
      Declared(AcceptedAfter(scopes, planOf), scopes[k])
  {
    hide AcceptedAfter, PrefixFirst;
    var before, after := AcceptedAfter(scopes[..k], planOf), AcceptedAfter(scopes, planOf);
    forall q | q < scopes[k] ensures (q in before <==> q in after) && (q in before ==> before[q] == after[q]) {
      EarlierPrefix(scopes, planOf, k, q);
    }
    if Declared(after, scopes[k]) { SameBelow(after, before, scopes[k]); }
    if Declared(before, scopes[k]) { SameBelow(before, after, scopes[k]); }
  }

  /** The split of an accepted path is unique: only its nearest accepted parent continues by a segment
      of its own plan to the path. */
  lemma {:induction false} SplitUnique(scopes: seq<Names>, planOf: PlanOf, path: Names, parent: Names)
    requires PrefixFirst(scopes) && path in AcceptedAfter(scopes, planOf)
    ensures var accepted := AcceptedAfter(scopes, planOf);
      parent in accepted && parent < path && Segment(accepted[parent], path[|parent|..]) ==>
        Nearest(accepted, parent, path)
  {
    var accepted := AcceptedAfter(scopes, planOf);
    if parent in accepted && parent < path && Segment(accepted[parent], path[|parent|..]) {
      AcceptedSegment(scopes, planOf, path);
      var nearest :| Nearest(accepted, nearest, path) && Segment(accepted[nearest], path[|nearest|..]);
      if |parent| < |nearest| {
        MiddleScalar(scopes, planOf, path, parent, nearest);
      } else {
        SamePrefix(parent, nearest, path);
      }
    }
  }

  /** An accepted path one name below another is a scalar step of its plan. */
  lemma {:induction false} MiddleScalar(scopes: seq<Names>, planOf: PlanOf, path: Names, parent: Names, middle: Names)
    requires PrefixFirst(scopes) && parent < path && middle < path && |middle| == |parent| + 1
    requires parent in AcceptedAfter(scopes, planOf) && middle in AcceptedAfter(scopes, planOf)
    ensures Segment(AcceptedAfter(scopes, planOf)[parent], [path[|parent|]])
  {
    var accepted := AcceptedAfter(scopes, planOf);
    assert middle == path[..|middle|] && parent == path[..|parent|] && parent == middle[..|parent|];
    AcceptedSegment(scopes, planOf, middle);
    var above :| Nearest(accepted, above, middle) && Segment(accepted[above], middle[|above|..]);
    assert |above| == |parent|;
    SamePrefix(above, parent, middle);
    assert middle[|parent|..] == [path[|parent|]];
  }

  // ----- plan bundles

  datatype Bundle = Bundle(steps: Steps, children: map<string, Bundle>)

  /** `_bundle_for_scope`, read from the first part on. */
  function BundleFor(b: Bundle, path: Names): Option<Bundle>
    decreases |path|
  {
    if path == [] then Some(b)
    else
      var step := FindStep(b.steps, path[0]);
      if path[0] !in b.children || step.None? || !step.value.composite then None
      else if !step.value.mapped then BundleFor(b.children[path[0]], path[1..])
      else if |path| == 1 || !IsSafeItemKey(path[1]) then None
      else BundleFor(b.children[path[0]], path[2..])
  }

  method BundleForScope(bundle: Bundle, path: Names) returns (found: Option<Bundle>)
    ensures found == BundleFor(bundle, path)
  {
    var current := bundle;
    var index := 0;
    assert path[0..] == path;
    while index < |path|
      invariant 0 <= index <= |path|
      invariant BundleFor(current, path[index..]) == BundleFor(bundle, path)
    {
      ghost var rest := path[index..];
      var id := path[index];
      var step := FindStep(current.steps, id);
      if id !in current.children || step.None? || !step.value.composite {
        return None;
      }
      index := index + 1;
      assert path[index..] == rest[1..];
      if step.value.mapped {
        if index >= |path| || !IsSafeItemKey(path[index]) {
          return None;
        }
        index := index + 1;
        assert path[index..] == rest[2..];
      }
      current := current.children[id];
    }
    return Some(current);
  }

  /** `_project_plan_steps`: a bundle does not record item keys. */
  function Project(steps: Steps): (r: Steps)
    ensures |r| == |steps|
  {
    if steps == [] then [] else [steps[0].(keys := [])] + Project(steps[1..])
  }

  function PlanFromBundle(root: Bundle): PlanOf {
    path => var b := BundleFor(root, path); if b.Some? then Some(Project(b.value.steps)) else None
  }

  lemma {:induction false} ProjectFinds(steps: Steps, id: string)
    ensures FindStep(Project(steps), id) ==
      match FindStep(steps, id) case None => None case Some(step) => Some(step.(keys := []))
    decreases steps
  {
    if steps != [] {
      ProjectFinds(steps[1..], id);
      assert Project(steps)[1..] == Project(steps[1..]);
    }
  }

  /** The one-pass walk composes. */
  lemma {:induction false} BundleConcat(b: Bundle, path: Names, more: Names)
    requires BundleFor(b, path).Some?
    ensures BundleFor(b, path + more) == BundleFor(BundleFor(b, path).value, more)
    decreases |path|
  {
    if path == [] {
      assert path + more == more;
    } else {
      var child := b.children[path[0]];
      var n := if FindStep(b.steps, path[0]).value.mapped then 2 else 1;
      assert (path + more)[n..] == path[n..] + more;
      BundleConcat(child, path[n..], more);
    }
  }

  lemma {:induction false} AcceptedBundle(root: Bundle, scopes: seq<Names>, path: Names)
    requires path in AcceptedAfter(scopes, PlanFromBundle(root))
    ensures BundleFor(root, path).Some?
    ensures AcceptedAfter(scopes, PlanFromBundle(root))[path] == Project(BundleFor(root, path).value.steps)
  {
    AcceptedAreScopes(scopes, PlanFromBundle(root));
  }

  /** In bundle mode the plan of every accepted scope is its nearest accepted parent's child plan for the
      step that its path continues with: the one-pass walk agrees with stepping from the parent. */
  lemma {:induction false} BundleStepsFromParent(root: Bundle, scopes: seq<Names>, path: Names, parent: Names)
    requires PrefixFirst(scopes) && path in AcceptedAfter(scopes, PlanFromBundle(root))
    requires Nearest(AcceptedAfter(scopes, PlanFromBundle(root)), parent, path)
    ensures BundleFor(root, parent).Some? && path[|parent|] in BundleFor(root, parent).value.children
    ensures BundleFor(root, path) == Some(BundleFor(root, parent).value.children[path[|parent|]])
  {
    AcceptedBundle(root, scopes, path);
    AcceptedBundle(root, scopes, parent);
    NearestSegment(scopes, PlanFromBundle(root), path, parent);
    StepBelow(root, parent, path);
  }

  lemma {:induction false} NearestSegment(scopes: seq<Names>, planOf: PlanOf, path: Names, parent: Names)
    requires PrefixFirst(scopes) && path in AcceptedAfter(scopes, planOf)
    ensures var accepted := AcceptedAfter(scopes, planOf);
      Nearest(accepted, parent, path) ==> Segment(accepted[parent], path[|parent|..])
  {
    hide AcceptedAfter, Segment;
    AcceptedSegment(scopes, planOf, path);
    var accepted := AcceptedAfter(scopes, planOf);
    if Nearest(accepted, parent, path) {
      var above :| Nearest(accepted, above, path) && Segment(accepted[above], path[|above|..]);
      SamePrefix(above, parent, path);
    }
  }

  lemma {:induction false} StepBelow(root: Bundle, parent: Names, path: Names)
    requires parent < path && BundleFor(root, parent).Some? && BundleFor(root, path).Some?
    requires Segment(Project(BundleFor(root, parent).value.steps), path[|parent|..])
    ensures var b := BundleFor(root, parent).value;
      path[|parent|] in b.children && BundleFor(root, path) == Some(b.children[path[|parent|]])
  {
    hide BundleFor, Segment;
    var parts := path[|parent|..];
    assert path == parent + parts;
    BundleConcat(root, parent, parts);
    OneStep(BundleFor(root, parent).value, parts);
  }

  lemma {:induction false} OneStep(b: Bundle, parts: Names)
    requires Segment(Project(b.steps), parts) && BundleFor(b, parts).Some?
    ensures parts[0] in b.children && BundleFor(b, parts) == Some(b.children[parts[0]])
  {
    ProjectFinds(b.steps, parts[0]);
    var n := if FindStep(b.steps, parts[0]).value.mapped then 2 else 1;
    assert parts[n..] == [];
  }

  /** `path` goes on from `b` by a scope of its plan that has a plan of its own. */
  ghost predicate GoesBy(b: Bundle, path: Names, n: nat) {
    0 < n <= |path| && Segment(Project(b.steps), path[..n]) && path[0] in b.children
  }

  /** The part of a bundle for a path is found by going down scope by scope, and by nothing else. */
  lemma {:induction false} BundleExactly(b: Bundle, path: Names, n: nat)
    ensures BundleFor(b, []) == Some(b)
    ensures GoesBy(b, path, n) ==> BundleFor(b, path) == BundleFor(b.children[path[0]], path[n..])
    ensures path != [] && !GoesBy(b, path, 1) && !GoesBy(b, path, 2) ==> BundleFor(b, path).None?
  {
    if path != [] {
      ProjectFinds(b.steps, path[0]);
      assert path[..1][0] == path[0];
      if |path| >= 2 { assert path[..2][0] == path[0] && path[..2][1] == path[1]; }
    }
  }
}
