/** The layering of Gemini native settings (src/metaproc/adapters/gemini_cli.py): the deep merge, the
    detector of workspace overrides, and Gemini's own merge that the detector has to agree with. */
module GeminiSettings {

  /** A JSON value; a number is kept as its canonical text, as `json.dumps` compares it. */
  datatype Json =
    | Obj(m: map<string, Json>)
    | Arr(items: seq<Json>)
    | Text(s: string)
    | Num(repr: string)
    | Bool(b: bool)
    | Null

  type Settings = map<string, Json>
  type KeyPath = seq<string>

  datatype Lookup = Missing | Found(v: Json)

  /** The value at a path of keys. */
  function At(j: Json, path: KeyPath): Lookup
    decreases path
  {
    if path == [] then Found(j)
    else if j.Obj? && path[0] in j.m then At(j.m[path[0]], path[1..])
    else Missing
  }

  // ----- deep merge

  /** `_deep_merge_settings`. */
  function Merge(base: Settings, over: Settings): Settings
    decreases Obj(over)
  {
    map k | k in base.Keys + over.Keys ::
      if k !in over then base[k]
      else if k in base && base[k].Obj? && over[k].Obj? then Obj(Merge(base[k].m, over[k].m))
      else over[k]
  }

  method DeepMerge(base: Settings, over: Settings) returns (merged: Settings)
    ensures merged == Merge(base, over)
    decreases Obj(over)
  {
    merged := base;
    var rest := over.Keys;
    while rest != {}
      invariant rest <= over.Keys
      invariant merged.Keys == base.Keys + (over.Keys - rest)
      invariant forall k | k in merged :: merged[k] == if k in rest then base[k] else Merge(base, over)[k]
      decreases rest
    {
      var key :| key in rest;
      var value := over[key];
      if key in merged && merged[key].Obj? && value.Obj? {
        var inner := DeepMerge(merged[key].m, value.m);
        merged := merged[key := Obj(inner)];
      } else {
        merged := merged[key := value];
      }
      rest := rest - {key};
    }
  }

  /** One value layered over another. */
  function Layer(base: Json, over: Json): Json {
    if base.Obj? && over.Obj? then Obj(Merge(base.m, over.m)) else over
  }

  /** On the way to `path`, `over` has a value that takes the place of everything below it. */
  ghost predicate Replaced(base: Json, over: Json, path: KeyPath) {
    exists k | 0 <= k < |path| :: Cuts(base, over, path[..k])
  }

  ghost predicate Cuts(base: Json, over: Json, path: KeyPath) {
    At(over, path).Found? &&
    !(At(over, path).v.Obj? && At(base, path).Found? && At(base, path).v.Obj?)
  }

  /** Deep merge, path by path: the override's value wins (layered over the base's if there is one);
      where the override is silent the base shows through unless an enclosing value was replaced. */
  lemma {:induction false} MergeAt(base: Json, over: Json, path: KeyPath)
    ensures At(Layer(base, over), path) ==
      match At(over, path)
      case Found(y) => Found(match At(base, path) case Found(x) => Layer(x, y) case Missing => y)
      case Missing => if Replaced(base, over, path) then Missing else At(base, path)
    decreases path
  {
    if path != [] {
      var k, rest := path[0], path[1..];
      assert path[..0] == [];
      if !(base.Obj? && over.Obj?) {
        assert Cuts(base, over, path[..0]);
      } else if k !in over.m {
        forall i | 0 <= i < |path| ensures !Cuts(base, over, path[..i]) {
          if i > 0 { assert path[..i][0] == k; }
        }
      } else if k !in base.m {
        if At(over, path).Missing? {
          SilentBase(base, over, path);
        }
      } else {
        MergeAt(base.m[k], over.m[k], rest);
        forall i | 0 <= i < |rest|
          ensures Cuts(base.m[k], over.m[k], rest[..i]) <==> Cuts(base, over, path[..i + 1])
        {
          assert path[..i + 1][1..] == rest[..i];
        }
        if Replaced(base.m[k], over.m[k], rest) {
          var i :| 0 <= i < |rest| && Cuts(base.m[k], over.m[k], rest[..i]);
          assert Cuts(base, over, path[..i + 1]);
        }
        if Replaced(base, over, path) {
          var i :| 0 <= i < |path| && Cuts(base, over, path[..i]);
          assert i > 0 && Cuts(base.m[k], over.m[k], rest[..i - 1]);
        }
      }
    }
  }

  /** A key that only the override has cuts the base off, whatever lies below. */
  lemma {:induction false} SilentBase(base: Json, over: Json, path: KeyPath)
    requires path != [] && base.Obj? && over.Obj? && path[0] in over.m && path[0] !in base.m
    ensures At(base, path).Missing?
    ensures |path| > 1 ==> Replaced(base, over, path)
  {
    if |path| > 1 {
      assert path[..1] == [path[0]] && path[..1][1..] == [];
      assert Cuts(base, over, path[..1]);
    }
  }

  /** Layering the same settings again changes nothing. */
  lemma {:induction false} MergeIdempotent(base: Settings, over: Settings)
    ensures Merge(Merge(base, over), over) == Merge(base, over)
    decreases Obj(over)
  {
    var once := Merge(base, over);
    forall k | k in over && once[k].Obj? && over[k].Obj?
      ensures Obj(Merge(once[k].m, over[k].m)) == once[k]
    {
      if k in base && base[k].Obj? {
        MergeIdempotent(base[k].m, over[k].m);
      } else {
        MergeSelf(over[k].m);
      }
    }
  }

  lemma {:induction false} MergeSelf(s: Settings)
    ensures Merge(s, s) == s
    decreases Obj(s)
  {
    forall k | k in s && s[k].Obj? ensures Obj(Merge(s[k].m, s[k].m)) == s[k] {
      MergeSelf(s[k].m);
    }
  }

  // ----- Gemini's merge and the override detector

  /** The objects whose entries Gemini replaces whole. */
  const SHALLOW: set<KeyPath> := {["mcpServers"]}

  /** How gemini-cli layers a workspace over the user settings, at the object with the given path. */
  function GeminiMerge(user: Settings, workspace: Settings, path: KeyPath): Settings
    decreases Obj(workspace)
  {
    map k | k in user.Keys + workspace.Keys ::
      if k !in workspace then user[k]
      else if k in user && user[k].Obj? && workspace[k].Obj? && path !in SHALLOW
      then Obj(GeminiMerge(user[k].m, workspace[k].m, path + [k]))
      else workspace[k]
  }

  /** `_overridden_settings`; the order of the report follows the dictionary and is not modelled. */
  function Overridden(asserted: Settings, workspace: Settings, path: KeyPath): set<KeyPath>
    decreases Obj(asserted), 0
  {
    set k, p | k in asserted.Keys && k in workspace.Keys
               && p in EntryOverridden(asserted[k], workspace[k], path, k) :: p
  }

  function EntryOverridden(value: Json, other: Json, path: KeyPath, key: string): set<KeyPath>
    decreases value, 1
  {
    if value.Obj? && other.Obj? && path !in SHALLOW then Overridden(value.m, other.m, path + [key])
    else if other != value then {path + [key]}
    else {}
  }

  method OverriddenSettings(asserted: Settings, workspace: Settings, path: KeyPath)
      returns (overridden: set<KeyPath>)
    ensures overridden == Overridden(asserted, workspace, path)
    decreases Obj(asserted)
  {
    overridden := {};
    var rest := asserted.Keys;
    while rest != {}
      invariant rest <= asserted.Keys
      invariant forall p :: p in overridden <==>
        exists k | k in asserted.Keys - rest && k in workspace ::
          p in EntryOverridden(asserted[k], workspace[k], path, k)
      decreases rest
    {
      var key :| key in rest;
      var value := asserted[key];
      ghost var before := overridden;
      if key in workspace {
        var other := workspace[key];
        if value.Obj? && other.Obj? && path !in SHALLOW {
          var inner := OverriddenSettings(value.m, other.m, path + [key]);
          overridden := overridden + inner;
        } else if other != value {
          overridden := overridden + {path + [key]};
        }
      }
      rest := rest - {key};
      forall p ensures p in overridden <==>
        exists k | k in asserted.Keys - rest && k in workspace ::
          p in EntryOverridden(asserted[k], workspace[k], path, k)
      {
        if k :| k in asserted.Keys - rest && k in workspace
                && p in EntryOverridden(asserted[k], workspace[k], path, k) {
          if k != key { assert p in before; }
        }
      }
    }
  }
}
