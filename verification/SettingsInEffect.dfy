/** What the user-scope launch guarantees: every setting that Metaproc asserts is in effect after
    Gemini has layered the workspace's settings over the private home. */
module SettingsInEffect {
  import opened GeminiSettings

  /** `path` lies inside an entry that Gemini replaces whole. */
  ghost predicate InsideWhole(path: KeyPath) {
    exists k | 0 <= k < |path| :: path[..k] in SHALLOW
  }

  lemma {:induction false} InsideStep(path: KeyPath, key: string)
    ensures InsideWhole(path + [key]) <==> InsideWhole(path) || path in SHALLOW
  {
    if path in SHALLOW { assert (path + [key])[..|path|] == path; }
    if k :| 0 <= k < |path| && path[..k] in SHALLOW { assert (path + [key])[..k] == path[..k]; }
    if k :| 0 <= k < |path + [key]| && (path + [key])[..k] in SHALLOW {
      assert (path + [key])[..k] == if k == |path| then path else path[..k];
    }
  }

  // ----- the detector

  /** What the asserted settings have at `at + path` is still there: the same value, or an object where
      there was an object, unless Gemini replaces it whole. */
  ghost predicate Kept(asserted: Json, merged: Json, at: KeyPath, path: KeyPath) {
    At(asserted, path).Missing?
    || (var v := At(asserted, path).v;
        var after := At(merged, path);
        after.Found? && (after.v == v || (v.Obj? && after.v.Obj? && !InsideWhole(at + path))))
  }

  ghost predicate Preserved(asserted: Settings, merged: Settings) {
    forall path :: Kept(Obj(asserted), Obj(merged), [], path)
  }

  lemma {:induction false} NoEntry(asserted: Settings, workspace: Settings, at: KeyPath, k: string)
    requires Overridden(asserted, workspace, at) == {} && k in asserted && k in workspace
    ensures EntryOverridden(asserted[k], workspace[k], at, k) == {}
  {
    assert forall p ::
        p in EntryOverridden(asserted[k], workspace[k], at, k) ==> p in Overridden(asserted, workspace, at);
  }

  lemma {:induction false} NoneOverriddenKeeps(asserted: Settings, workspace: Settings, at: KeyPath, path: KeyPath)
    requires Overridden(asserted, workspace, at) == {} && !InsideWhole(at)
    ensures Kept(Obj(asserted), Obj(GeminiMerge(asserted, workspace, at)), at, path)
    decreases path
  {
    if path == [] {
      assert at + path == at;
    } else if path[0] in asserted && path[0] in workspace {
      var k := path[0];
      NoEntry(asserted, workspace, at, k);
      if asserted[k].Obj? && workspace[k].Obj? && at !in SHALLOW {
        InsideStep(at, k);
        assert at + path == at + [k] + path[1..];
        NoneOverriddenKeeps(asserted[k].m, workspace[k].m, at + [k], path[1..]);
      }
    }
  }

  /** The first place on its way where Gemini's merge does not keep the asserted settings. */
  ghost predicate FirstLoss(asserted: Json, merged: Json, at: KeyPath, path: KeyPath) {
    !Kept(asserted, merged, at, path) && forall k | 0 <= k < |path| :: Kept(asserted, merged, at, path[..k])
  }

  lemma {:induction false} ReportedBelow(asserted: Settings, workspace: Settings, at: KeyPath, p: KeyPath)
    requires p in Overridden(asserted, workspace, at)
    ensures |at| < |p| && at == p[..|at|]
    decreases Obj(asserted), 0
  {
    var k :| k in asserted && k in workspace && p in EntryOverridden(asserted[k], workspace[k], at, k);
    EntryBelow(asserted[k], workspace[k], at, k, p);
  }

  lemma {:induction false} EntryBelow(value: Json, other: Json, at: KeyPath, k: string, p: KeyPath)
    requires p in EntryOverridden(value, other, at, k)
    ensures |at| < |p| && p[..|at|] == at && p[|at|] == k
    decreases value, 1
  {
    if value.Obj? && other.Obj? && at !in SHALLOW {
      ReportedBelow(value.m, other.m, at + [k], p);
      assert p[..|at|] == p[..|at| + 1][..|at|] == at;
    }
  }

  /** The report lists exactly the first losses. */
  lemma {:induction false} ReportsFirstLosses(asserted: Settings, workspace: Settings, at: KeyPath, path: KeyPath)
    requires !InsideWhole(at)
    ensures at + path in Overridden(asserted, workspace, at)
            <==> FirstLoss(Obj(asserted), Obj(GeminiMerge(asserted, workspace, at)), at, path)
    decreases path
  {
    var merged := GeminiMerge(asserted, workspace, at);
    assert at + [] == at;
    assert Kept(Obj(asserted), Obj(merged), at, []);
    if path == [] {
      if at in Overridden(asserted, workspace, at) { ReportedBelow(asserted, workspace, at, at); }
    } else {
      var k, rest := path[0], path[1..];
      OnlyItsEntry(asserted, workspace, at, path);
      if k in asserted {
        InsideStep(at, k);
        ShiftLoss(asserted, merged, at, path);
        assert at + path == at + [k] + rest;
        if k !in workspace {
          assert Kept(asserted[k], merged[k], at + [k], rest);
        } else if asserted[k].Obj? && workspace[k].Obj? && at !in SHALLOW {
          ReportsFirstLosses(asserted[k].m, workspace[k].m, at + [k], rest);
        } else {
          assert rest[..0] == [] && at + [k] + [] == at + [k];
          assert Kept(asserted[k], merged[k], at + [k], []) <==> asserted[k] == workspace[k];
          assert rest != [] ==> |at + path| != |at + [k]|;
        }
      }
    }
  }

  /** A first loss below a key is a first loss of the value at that key. */
  lemma {:induction false} ShiftLoss(asserted: Settings, merged: Settings, at: KeyPath, path: KeyPath)
    requires path != [] && path[0] in asserted && path[0] in merged && !InsideWhole(at)
    ensures FirstLoss(Obj(asserted), Obj(merged), at, path)
            <==> FirstLoss(asserted[path[0]], merged[path[0]], at + [path[0]], path[1..])
  {
    var k, rest := path[0], path[1..];
    forall i | 0 <= i <= |rest|
      ensures Kept(Obj(asserted), Obj(merged), at, path[..i + 1]) <==> Kept(asserted[k], merged[k], at + [k], rest[..i])
    {
      assert path[..i + 1][0] == k && path[..i + 1][1..] == rest[..i];
      assert at + path[..i + 1] == at + [k] + rest[..i];
    }
    assert path[..|path|] == path && rest[..|rest|] == rest;
    assert at + [] == at && path[..0] == [] && Kept(Obj(asserted), Obj(merged), at, []);
    if FirstLoss(Obj(asserted), Obj(merged), at, path) {
      forall i | 0 <= i < |rest| ensures Kept(asserted[k], merged[k], at + [k], rest[..i]) {
        assert Kept(Obj(asserted), Obj(merged), at, path[..i + 1]);
      }
    }
    if FirstLoss(asserted[k], merged[k], at + [k], rest) {
      forall i | 0 <= i < |path| ensures Kept(Obj(asserted), Obj(merged), at, path[..i]) {
        if i > 0 { assert Kept(asserted[k], merged[k], at + [k], rest[..i - 1]); }
      }
    }
  }

  lemma {:induction false} OnlyItsEntry(asserted: Settings, workspace: Settings, at: KeyPath, path: KeyPath)
    requires path != []
    ensures at + path in Overridden(asserted, workspace, at) <==>
      path[0] in asserted && path[0] in workspace
      && at + path in EntryOverridden(asserted[path[0]], workspace[path[0]], at, path[0])
  {
    var p := at + path;
    if p in Overridden(asserted, workspace, at) {
      var k :| k in asserted && k in workspace && p in EntryOverridden(asserted[k], workspace[k], at, k);
      EntryBelow(asserted[k], workspace[k], at, k, p);
    }
  }

  /** The detector is exact: it reports nothing if and only if Gemini's merge of the workspace over
      the asserted settings keeps them all. */
  lemma {:induction false} DetectorExact(asserted: Settings, workspace: Settings)
    ensures Overridden(asserted, workspace, []) == {}
            <==> Preserved(asserted, GeminiMerge(asserted, workspace, []))
  {
    if Overridden(asserted, workspace, []) == {} {
      forall path ensures Kept(Obj(asserted), Obj(GeminiMerge(asserted, workspace, [])), [], path) {
        NoneOverriddenKeeps(asserted, workspace, [], path);
      }
    } else {
      var p :| p in Overridden(asserted, workspace, []);
      assert [] + p == p;
      ReportsFirstLosses(asserted, workspace, [], p);
    }
  }

  // ----- the effective settings

  /** `home` carries everything that `asserted` says: leaves unchanged, objects as objects. */
  ghost predicate Carries(asserted: Json, home: Json) {
    forall path | At(asserted, path).Found? :: CarriesAt(asserted, home, path)
  }

  ghost predicate CarriesAt(asserted: Json, home: Json, path: KeyPath)
    requires At(asserted, path).Found?
  {
    var v, h := At(asserted, path).v, At(home, path);
    h.Found? && if v.Obj? then h.v.Obj? else h.v == v
  }

  /** The private home carries the native settings, whatever template they are layered on. */
  lemma {:induction false} HomeCarries(template: Settings, native: Settings)
    ensures Carries(Obj(native), Obj(Merge(template, native)))
  {
    forall path | At(Obj(native), path).Found?
      ensures CarriesAt(Obj(native), Obj(Merge(template, native)), path)
    {
      MergeAt(Obj(template), Obj(native), path);
    }
  }

  lemma {:induction false} InEffect(native: Settings, home: Settings, workspace: Settings, at: KeyPath, path: KeyPath)
    requires Overridden(native, workspace, at) == {} && Carries(Obj(native), Obj(home))
    requires At(Obj(native), path).Found?
    ensures CarriesAt(Obj(native), Obj(GeminiMerge(home, workspace, at)), path)
    decreases path
  {
    if path != [] {
      var k := path[0];
      assert CarriesAt(Obj(native), Obj(home), path);
      CarriesBelow(native, home, k);
      if k in workspace {
        NoEntry(native, workspace, at, k);
        if native[k].Obj? && workspace[k].Obj? && at !in SHALLOW {
          InEffect(native[k].m, home[k].m, workspace[k].m, at + [k], path[1..]);
        }
      }
    }
  }

  lemma {:induction false} CarriesBelow(native: Settings, home: Settings, k: string)
    requires Carries(Obj(native), Obj(home)) && k in native
    ensures k in home && Carries(native[k], home[k])
  {
    assert [k][1..] == [];
    assert CarriesAt(Obj(native), Obj(home), [k]);
    forall path | At(native[k], path).Found? ensures CarriesAt(native[k], home[k], path) {
      assert ([k] + path)[1..] == path;
      assert CarriesAt(Obj(native), Obj(home), [k] + path);
    }
  }

  // ----- a user-scope launch

  /** The defaults with the profile's block layered on top; a block that is no object is ignored. */
  function Layered(base: Settings, override: Json): Settings {
    if override.Obj? then Merge(base, override.m) else base
  }

  /** The workspace settings file: absent, unreadable, or parsed (`Null` stands for no valid JSON). */
  datatype WorkspaceFile = Absent | Unreadable | Parsed(json: Json)

  datatype Launch = Refused | Launched(home: Settings, workspace: Settings)

  /** `_checked_workspace_settings` and the private home of `prepare_env`; no template is empty. */
  function UserScopeLaunch(native: Settings, template: Settings, file: WorkspaceFile): Launch {
    var home := Merge(template, native);
    match file
    case Absent => Launched(home, map[])
    case Unreadable => Refused
    case Parsed(json) =>
      if !json.Obj? || Overridden(native, json.m, []) != {} then Refused else Launched(home, json.m)
  }

  /** What Gemini runs with. */
  function Effective(launch: Launch): Settings
    requires launch.Launched?
  {
    GeminiMerge(launch.home, launch.workspace, [])
  }

  /** Every leaf of the native settings has its asserted value in a launch that is not refused, for
      every template and workspace file. */
  lemma {:induction false} AssertedInEffect(native: Settings, template: Settings, file: WorkspaceFile, path: KeyPath)
    requires UserScopeLaunch(native, template, file).Launched? && At(Obj(native), path).Found?
    ensures CarriesAt(Obj(native), Obj(Effective(UserScopeLaunch(native, template, file))), path)
  {
    HomeCarries(template, native);
    var launch := UserScopeLaunch(native, template, file);
    assert file.Absent? ==> Overridden(native, map[], []) == {};
    InEffect(native, launch.home, launch.workspace, [], path);
  }

  /** The override names the key itself, or puts something else than an object above it. */
  ghost predicate Touches(override: Json, path: KeyPath) {
    override.Obj? && (At(override, path).Found? || exists k | 0 < k < |path| :: Blocks(override, path[..k]))
  }

  ghost predicate Blocks(j: Json, path: KeyPath) {
    At(j, path).Found? && !At(j, path).v.Obj?
  }

  /** A default leaf is in effect in a launch that is not refused if and only if the override leaves
      the key alone or itself sets the same value. */
  lemma {:induction false} DefaultInEffect(base: Settings, override: Json, template: Settings, file: WorkspaceFile,
                                           p: KeyPath)
    requires UserScopeLaunch(Layered(base, override), template, file).Launched?
    requires At(Obj(base), p).Found? && !At(Obj(base), p).v.Obj?
    ensures var effective := Effective(UserScopeLaunch(Layered(base, override), template, file));
      At(Obj(effective), p) == At(Obj(base), p)
      <==> (!Touches(override, p) || At(override, p) == At(Obj(base), p))
  {
    var native := Layered(base, override);
    var effective := Effective(UserScopeLaunch(native, template, file));
    if override.Obj? {
      MergeAt(Obj(base), override, p);
      forall k | 0 <= k < |p| ensures Cuts(Obj(base), override, p[..k]) <==> Blocks(override, p[..k]) {
        ObjectsAbove(Obj(base), p, k);
      }
      assert p[..0] == [] && !Blocks(override, p[..0]);
      assert Replaced(Obj(base), override, p) <==> exists k | 0 < k < |p| :: Blocks(override, p[..k]);
    }
    if At(Obj(native), p).Found? {
      AssertedInEffect(native, template, file, p);
    } else {
      var k :| 0 < k < |p| && Blocks(override, p[..k]);
      MergeAt(Obj(base), override, p[..k]);
      AssertedInEffect(native, template, file, p[..k]);
      assert p == p[..k] + p[k..];
      NothingBelow(Obj(effective), p[..k], p[k..]);
    }
  }

  lemma {:induction false} ObjectsAbove(j: Json, path: KeyPath, k: nat)
    requires At(j, path).Found? && k < |path|
    ensures At(j, path[..k]).Found? && At(j, path[..k]).v.Obj?
    decreases path
  {
    if k > 0 {
      ObjectsAbove(j.m[path[0]], path[1..], k - 1);
      assert path[..k][1..] == path[1..][..k - 1];
    } else {
      assert path[..k] == [];
    }
  }

  lemma {:induction false} NothingBelow(j: Json, path: KeyPath, more: KeyPath)
    requires Blocks(j, path) && more != []
    ensures At(j, path + more).Missing?
    decreases path
  {
    if path == [] {
      assert path + more == more;
    } else {
      assert (path + more)[1..] == path[1..] + more;
      NothingBelow(j.m[path[0]], path[1..], more);
    }
  }

  // ----- which files let Gemini launch, and what is in effect for keys that nobody asserts

  /** Gemini replaces the entries of `mcpServers`, and nothing else, whole. */
  lemma {:induction false} WholeEntries(path: KeyPath)
    ensures InsideWhole(path) <==> |path| >= 2 && path[0] == "mcpServers"
  {
    if |path| >= 2 && path[0] == "mcpServers" { assert path[..1] == ["mcpServers"]; }
    if k :| 0 <= k < |path| && path[..k] in SHALLOW { assert path[..k][0] == "mcpServers"; }
  }

  /** One value layered over another by Gemini, at a path. */
  function GeminiLayer(base: Json, over: Json, at: KeyPath): Json {
    if base.Obj? && over.Obj? && !InsideServers(at) then Obj(GeminiMerge(base.m, over.m, at)) else over
  }

  predicate InsideServers(path: KeyPath) {
    |path| >= 2 && path[0] == "mcpServers"
  }

  /** On the way to `path`, the workspace has a value that takes the place of everything below it. */
  ghost predicate GeminiReplaced(base: Json, over: Json, at: KeyPath, path: KeyPath) {
    exists k | 0 <= k < |path| :: GeminiCuts(base, over, at, path[..k])
  }

  ghost predicate GeminiCuts(base: Json, over: Json, at: KeyPath, path: KeyPath) {
    At(over, path).Found?
    && !(At(over, path).v.Obj? && At(base, path).Found? && At(base, path).v.Obj? && !InsideServers(at + path))
  }

  lemma {:induction false} InsideServersStep(at: KeyPath, key: string)
    ensures InsideServers(at + [key]) <==> InsideServers(at) || at in SHALLOW
  {
    InsideStep(at, key);
    WholeEntries(at);
    WholeEntries(at + [key]);
  }

  /** Gemini's merge, path by path: the workspace's value wins; where the workspace is silent the home shows through
      unless an enclosing value was replaced. */
  lemma {:induction false} GeminiMergeAt(base: Json, over: Json, at: KeyPath, path: KeyPath)
    ensures At(GeminiLayer(base, over, at), path) ==
      match At(over, path)
      case Found(y) => Found(match At(base, path) case Found(x) => GeminiLayer(x, y, at + path) case Missing => y)
      case Missing => if GeminiReplaced(base, over, at, path) then Missing else At(base, path)
    decreases path
  {
    assert at + [] == at;
    if path != [] {
      var k, rest := path[0], path[1..];
      assert path[..0] == [] && at + path == at + [k] + rest;
      if !(base.Obj? && over.Obj? && !InsideServers(at)) {
        assert GeminiCuts(base, over, at, path[..0]);
        if InsideServers(at) { assert InsideServers(at + path); }
      } else if k !in over.m {
        forall i | 0 <= i < |path| ensures !GeminiCuts(base, over, at, path[..i]) {
          if i > 0 { assert path[..i][0] == k; }
        }
      } else if k !in base.m {
        if At(over, path).Missing? { SilentHome(base, over, at, path); }
      } else {
        InsideServersStep(at, k);
        GeminiMergeAt(base.m[k], over.m[k], at + [k], rest);
        ShiftCuts(base, over, at, path);
      }
    }
  }

  lemma {:induction false} SilentHome(base: Json, over: Json, at: KeyPath, path: KeyPath)
    requires path != [] && base.Obj? && over.Obj? && path[0] in over.m && path[0] !in base.m
    ensures At(base, path).Missing?
    ensures |path| > 1 ==> GeminiReplaced(base, over, at, path)
  {
    if |path| > 1 {
      assert path[..1] == [path[0]] && path[..1][1..] == [];
      assert GeminiCuts(base, over, at, path[..1]);
    }
  }

  lemma {:induction false} ShiftCuts(base: Json, over: Json, at: KeyPath, path: KeyPath)
    requires path != [] && base.Obj? && over.Obj? && path[0] in over.m && path[0] in base.m && !InsideServers(at)
    ensures GeminiReplaced(base, over, at, path) <==>
      GeminiReplaced(base.m[path[0]], over.m[path[0]], at + [path[0]], path[1..])
  {
    var k, rest := path[0], path[1..];
    forall i | 0 <= i < |rest|
      ensures GeminiCuts(base.m[k], over.m[k], at + [k], rest[..i]) <==> GeminiCuts(base, over, at, path[..i + 1])
    {
      assert path[..i + 1][0] == k && path[..i + 1][1..] == rest[..i];
      assert at + path[..i + 1] == at + [k] + rest[..i];
    }
    assert path[..0] == [] && at + [] == at && !GeminiCuts(base, over, at, path[..0]);
    if GeminiReplaced(base.m[k], over.m[k], at + [k], rest) {
      var i :| 0 <= i < |rest| && GeminiCuts(base.m[k], over.m[k], at + [k], rest[..i]);
      assert GeminiCuts(base, over, at, path[..i + 1]);
    }
    if GeminiReplaced(base, over, at, path) {
      var i :| 0 <= i < |path| && GeminiCuts(base, over, at, path[..i]);
      assert i > 0 && GeminiCuts(base.m[k], over.m[k], at + [k], rest[..i - 1]);
    }
  }

  /** A launch is refused exactly if there is a workspace file that cannot be read, is no JSON object, or would make
      Gemini's own merge lose one of the native settings. */
  lemma {:induction false} LaunchExactly(native: Settings, template: Settings, file: WorkspaceFile)
    ensures UserScopeLaunch(native, template, file).Launched? <==>
      file.Absent?
      || (file.Parsed? && file.json.Obj? && Preserved(native, GeminiMerge(native, file.json.m, [])))
  {
    if file.Parsed? && file.json.Obj? { DetectorExact(native, file.json.m); }
  }

  function WorkspaceOf(file: WorkspaceFile): Json {
    if file.Parsed? then file.json else Obj(map[])
  }

  /** No asserted value at a path or above it but objects. */
  ghost predicate Unasserted(native: Settings, path: KeyPath) {
    At(Obj(native), path).Missing? && forall k | 0 <= k < |path| :: !Blocks(Obj(native), path[..k])
  }

  /** The workspace has no value above a path but objects, and does not replace an entry of `mcpServers` there. */
  ghost predicate LeavesOpen(workspace: Json, path: KeyPath) {
    forall k | 0 < k < |path| && At(workspace, path[..k]).Found? ::
      At(workspace, path[..k]).v.Obj? && !InsideServers(path[..k])
  }

  /** For a key that is not asserted, what is in effect is the workspace's value, and the template's if the workspace is
      silent about it. */
  lemma {:induction false} WorkspaceElseTemplate(native: Settings, template: Settings, file: WorkspaceFile,
                                                 path: KeyPath)
    requires UserScopeLaunch(native, template, file).Launched? && Unasserted(native, path)
    ensures var effective := Obj(Effective(UserScopeLaunch(native, template, file)));
      var workspace := WorkspaceOf(file);
      match At(workspace, path)
      case Found(y) => At(effective, path).Found? && (if y.Obj? then At(effective, path).v.Obj?
                                                      else At(effective, path) == Found(y))
      case Missing => LeavesOpen(workspace, path) ==> At(effective, path) == At(Obj(template), path)
  {
    var home, workspace := Obj(Merge(template, native)), WorkspaceOf(file);
    GeminiMergeAt(home, workspace, [], path);
    assert [] + path == path;
    HomeIsTemplate(native, template, path);
    if At(workspace, path).Missing? && LeavesOpen(workspace, path) && GeminiReplaced(home, workspace, [], path) {
      var k :| 0 <= k < |path| && GeminiCuts(home, workspace, [], path[..k]);
      assert [] + path[..k] == path[..k] && k > 0;
      HomeIsTemplateAbove(native, template, path, k);
      NothingFurther(Obj(template), path, k);
    }
  }

  lemma {:induction false} HomeIsTemplate(native: Settings, template: Settings, path: KeyPath)
    requires Unasserted(native, path)
    ensures At(Obj(Merge(template, native)), path) == At(Obj(template), path)
  {
    MergeAt(Obj(template), Obj(native), path);
    if Replaced(Obj(template), Obj(native), path) {
      var k :| 0 <= k < |path| && Cuts(Obj(template), Obj(native), path[..k]);
      assert !Blocks(Obj(native), path[..k]);
      NothingFurther(Obj(template), path, k);
    }
  }

  /** Where the home has no object above such a path the template has none. */
  lemma {:induction false} HomeIsTemplateAbove(native: Settings, template: Settings, path: KeyPath, k: nat)
    requires Unasserted(native, path) && k < |path|
    requires !(At(Obj(Merge(template, native)), path[..k]).Found? && At(Obj(Merge(template, native)), path[..k]).v.Obj?)
    ensures !(At(Obj(template), path[..k]).Found? && At(Obj(template), path[..k]).v.Obj?)
  {
    MergeAt(Obj(template), Obj(native), path[..k]);
    assert !Blocks(Obj(native), path[..k]);
    if At(Obj(native), path[..k]).Missing? {
      assert forall i | 0 <= i < k :: path[..k][..i] == path[..i] && !Blocks(Obj(native), path[..i]);
      HomeIsTemplate(native, template, path[..k]);
    }
  }

  /** Nothing lies below what is no object. */
  lemma {:induction false} NothingFurther(j: Json, path: KeyPath, k: nat)
    requires k < |path| && !(At(j, path[..k]).Found? && At(j, path[..k]).v.Obj?)
    ensures At(j, path).Missing?
    decreases path
  {
    if k == 0 {
      assert path[..0] == [];
    } else if j.Obj? && path[0] in j.m {
      assert path[..k][0] == path[0] && path[..k][1..] == path[1..][..k - 1];
      NothingFurther(j.m[path[0]], path[1..], k - 1);
    }
  }

  // ----- session retention

  const SESSION_RETENTION: KeyPath := ["general", "sessionRetention", "enabled"]

  const RETENTION_SETTINGS: Settings :=
    map["general" := Obj(map["sessionRetention" := Obj(map["enabled" := Bool(false)])])]

  const DYNAMIC_MODEL_SETTINGS: Settings :=
    map["experimental" := Obj(map["dynamicModelConfiguration" := Bool(true)])]

  const DISABLED: Json := Obj(map["enabled" := Bool(false)])

  const DEFAULT_SETTINGS: Settings := map[
    "experimental" := Obj(map["dynamicModelConfiguration" := Bool(true)]),
    "general" := Obj(map["sessionRetention" := Obj(map["enabled" := Bool(false)])]),
    "context" := Obj(map["fileFiltering" := Obj(map["respectGitIgnore" := Bool(false)])]),
    "agents" := Obj(map["overrides" := Obj(map[
      "generalist" := DISABLED, "codebase_investigator" := DISABLED, "cli_help" := DISABLED])]),
    "modelConfigs" := Obj(map["overrides" := Arr([Obj(map[
      "match" := Obj(map["overrideScope" := Text("chat-base-3")]),
      "modelConfig" := Obj(map["generateContentConfig" := Obj(map["thinkingConfig" := Obj(map[
        "thinkingLevel" := Text("HIGH")])])])])])])
  ]

  const BASE_SETTINGS: Settings :=
    Merge(Merge(RETENTION_SETTINGS, DYNAMIC_MODEL_SETTINGS), DEFAULT_SETTINGS)

  lemma {:induction false} BaseRetention()
    ensures At(Obj(BASE_SETTINGS), SESSION_RETENTION) == Found(Bool(false))
  {
    var p := SESSION_RETENTION;
    assert p[1..] == ["sessionRetention", "enabled"] && p[1..][1..] == ["enabled"] && p[1..][1..][1..] == [];
    var lower := Merge(RETENTION_SETTINGS, DYNAMIC_MODEL_SETTINGS);
    assert lower["general"] == RETENTION_SETTINGS["general"];
    var general := Merge(lower["general"].m, DEFAULT_SETTINGS["general"].m);
    assert BASE_SETTINGS["general"] == Obj(general);
    var retention := general["sessionRetention"];
    assert retention == Obj(Merge(lower["general"].m["sessionRetention"].m,
                                  DEFAULT_SETTINGS["general"].m["sessionRetention"].m));
    assert retention.m["enabled"] == Bool(false);
  }

  /** Gemini's own session cleanup stays off in a launch that is not refused if and only if the
      override leaves the key alone or itself sets it to false. */
  lemma {:induction false} RetentionOff(template: Settings, override: Json, file: WorkspaceFile)
    requires UserScopeLaunch(Layered(BASE_SETTINGS, override), template, file).Launched?
    ensures var effective := Effective(UserScopeLaunch(Layered(BASE_SETTINGS, override), template, file));
      At(Obj(effective), SESSION_RETENTION) == Found(Bool(false))
      <==> (!Touches(override, SESSION_RETENTION) || At(override, SESSION_RETENTION) == Found(Bool(false)))
  {
    BaseRetention();
    DefaultInEffect(BASE_SETTINGS, override, template, file, SESSION_RETENTION);
  }
}
