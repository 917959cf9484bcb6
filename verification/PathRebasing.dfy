/** Rebasing a recorded output path from the original run root onto the current one
    (src/metaproc/runtime_projection.py, `_rebase_portable_output_path`). */
module PathRebasing {
  import opened PurePaths

  datatype Rebased = EmptyPath | External | Inside(path: Path)

  /** One more part for a normalised prefix, as `os.path.normpath` adds it. */
  function Push(abs: bool, done: seq<string>, part: string): seq<string> {
    if part != DOTDOT then done + [part]
    else if done != [] && done[|done| - 1] != DOTDOT then done[..|done| - 1]
    else if abs then done
    else done + [part]
  }

  function NormFrom(abs: bool, done: seq<string>, parts: seq<string>): seq<string>
    decreases parts
  {
    if parts == [] then done else NormFrom(abs, Push(abs, done, parts[0]), parts[1..])
  }

  /** `os.path.normpath`, which is also what resolving does where there are no symlinks. */
  function Norm(p: Path): Path {
    Path(p.abs, NormFrom(p.abs, [], p.parts))
  }

  /** At or below means joined with names that do not lead up. */
  lemma {:induction false} UnderExactly(root: Path, path: Path)
    ensures Under(root, path) <==> exists rest :: DOTDOT !in rest && path == Join(root, Path(false, rest))
  {
    if Under(root, path) { assert path == Join(root, Path(false, path.parts[|root.parts|..])); }
    if rest :| DOTDOT !in rest && path == Join(root, Path(false, rest)) {
      assert path.parts[|root.parts|..] == rest;
    }
  }

  predicate Plain(parts: seq<string>) {
    DOTDOT !in parts
  }

  /** A normalised absolute path: a resolved directory. */
  predicate Resolved(p: Path) {
    p.abs && Plain(p.parts)
  }

  predicate Contains(root: Path, p: Path) {
    root.abs == p.abs && root.parts <= p.parts
  }

  /** The part of a path below a root; the caller has checked that there is one. */
  function Tail(root: Path, p: Path): seq<string>
    requires Contains(root, p)
  {
    p.parts[|root.parts|..]
  }

  /** What a file system resolves a path to. */
  type Resolver = Path -> Path

  function RebaseWith(recorded: Path, isEmpty: bool, current: Path, original: Path, resolve: Resolver): Rebased {
    if isEmpty then EmptyPath
    else
      var rec, orig := Norm(recorded), Norm(original);
      if orig.abs then
        var full := if rec.abs then rec else Path(true, orig.parts + rec.parts);
        if !Contains(orig, full) then External else Checked(current, Tail(orig, full), resolve)
      else if rec.abs then External
      else Checked(current, if Contains(orig, rec) then Tail(orig, rec) else rec.parts, resolve)
  }

  function Checked(current: Path, relative: seq<string>, resolve: Resolver): Rebased {
    var candidate := Path(current.abs, current.parts + relative);
    if Contains(current, resolve(candidate)) then Inside(candidate) else External
  }

  // ----- without symlinks

  function Rebase(recorded: Path, current: Path, original: Path): Rebased {
    RebaseWith(recorded, false, current, original, Norm)
  }

  lemma {:induction false} NormPlainTail(abs: bool, done: seq<string>, parts: seq<string>)
    requires Plain(parts)
    ensures NormFrom(abs, done, parts) == done + parts
    decreases parts
  {
    if parts != [] {
      NormPlainTail(abs, done + [parts[0]], parts[1..]);
      assert done + [parts[0]] + parts[1..] == done + parts;
    } else {
      assert done + parts == done;
    }
  }

  /** Normalised parts: `..` only at the front, and there only in a relative path. */
  predicate Normal(abs: bool, parts: seq<string>) {
    forall k | 0 <= k < |parts| && parts[k] == DOTDOT :: !abs && forall i | 0 <= i < k :: parts[i] == DOTDOT
  }

  lemma {:induction false} NormIsNormal(abs: bool, done: seq<string>, parts: seq<string>)
    requires Normal(abs, done)
    ensures Normal(abs, NormFrom(abs, done, parts))
    decreases parts
  {
    if parts != [] {
      NormIsNormal(abs, Push(abs, done, parts[0]), parts[1..]);
    }
  }

  /** A normal path without a leading `..` has none at all. */
  lemma {:induction false} NormalPlain(abs: bool, parts: seq<string>)
    requires Normal(abs, parts) && (abs || parts == [] || parts[0] != DOTDOT)
    ensures Plain(parts)
  {
  }

  lemma {:induction false} NormPlain(p: Path)
    requires Plain(p.parts)
    ensures Norm(p) == p
  {
    NormPlainTail(p.abs, [], p.parts);
  }

  /** The recorded path does not lead up and out of where it starts. */
  predicate StaysBelow(recorded: Path) {
    recorded.abs || Norm(recorded).parts == [] || Norm(recorded).parts[0] != DOTDOT
  }

  /** The path below the original root that a recorded path names, if it names one. */
  function Relative(recorded: Path, original: Path): seq<string>
    requires recorded.abs ==> Contains(original, Norm(recorded))
  {
    if recorded.abs then Tail(original, Norm(recorded)) else Norm(recorded).parts
  }

  /** A recorded path that stays below keeps its relative path under the new root, or it is external:
      absolute and not below the original root. */
  lemma {:induction false} RebaseKeepsRelative(recorded: Path, current: Path, original: Path)
    requires Resolved(current) && Resolved(original) && StaysBelow(recorded)
    ensures Rebase(recorded, current, original) ==
      if recorded.abs && !Contains(original, Norm(recorded)) then External
      else Inside(Path(true, current.parts + Relative(recorded, original)))
    ensures !(recorded.abs && !Contains(original, Norm(recorded))) ==> Plain(Relative(recorded, original))
  {
    var rec := Norm(recorded);
    NormPlain(original);
    NormIsNormal(recorded.abs, [], recorded.parts);
    NormalPlain(rec.abs, rec.parts);
    if !recorded.abs || Contains(original, rec) {
      var relative := Relative(recorded, original);
      assert !recorded.abs ==> Tail(original, Path(true, original.parts + rec.parts)) == rec.parts;
      NormPlain(Path(true, current.parts + relative));
    }
  }

  /** Where the original root was recorded as a relative path: absolute paths are external, and of the others the part
      behind that root is kept, or all of it where it does not begin with the root. */
  lemma {:induction false} RelativeRoot(recorded: Path, current: Path, original: Path, behind: seq<string>)
    requires Resolved(current) && !original.abs && StaysBelow(recorded)
    ensures var rec, root := Norm(recorded).parts, Norm(original).parts;
      var r := Rebase(recorded, current, original);
      && (recorded.abs <==> r.External?)
      && (!recorded.abs && rec == root + behind ==> r == Inside(Path(true, current.parts + behind)))
      && (!recorded.abs && !(root <= rec) ==> r == Inside(Path(true, current.parts + rec)))
  {
    var rec, root := Norm(recorded), Norm(original);
    if !recorded.abs {
      NormIsNormal(false, [], recorded.parts);
      NormalPlain(false, rec.parts);
      var kept := if Contains(root, rec) then Tail(root, rec) else rec.parts;
      assert DOTDOT !in kept;
      NormPlain(Path(true, current.parts + kept));
    }
  }

  /** Rebasing onto the same root gives the normalised path itself. */
  lemma {:induction false} RebaseIdentity(recorded: Path, root: Path)
    requires Resolved(root) && recorded.abs && Contains(root, Norm(recorded))
    ensures Rebase(recorded, root, root) == Inside(Norm(recorded))
  {
    RebaseKeepsRelative(recorded, root, root);
    assert Norm(recorded).parts == root.parts + Tail(root, Norm(recorded));
  }

  /** Moving a run from A to B and on to C is moving it from A to C. */
  predicate Composes(recorded: Path, a: Path, b: Path, c: Path) {
    match Rebase(recorded, b, a)
    case Inside(moved) => Rebase(moved, c, b) == Rebase(recorded, c, a)
    case External => Rebase(recorded, c, a).External?
    case EmptyPath => false
  }

  lemma {:induction false} RebaseComposes(recorded: Path, a: Path, b: Path, c: Path)
    requires Resolved(a) && Resolved(b) && Resolved(c) && StaysBelow(recorded)
    ensures Composes(recorded, a, b, c)
  {
    RebaseKeepsRelative(recorded, b, a);
    RebaseKeepsRelative(recorded, c, a);
    if Rebase(recorded, b, a).Inside? {
      var moved := Path(true, b.parts + Relative(recorded, a));
      NormPlain(moved);
      RebaseKeepsRelative(moved, c, b);
      assert Tail(b, moved) == Relative(recorded, a);
    }
  }

  // ----- paths that lead up

  function Ups(parts: seq<string>): (k: nat)
    ensures k <= |parts|
  {
    if parts != [] && parts[0] == DOTDOT then 1 + Ups(parts[1..]) else 0
  }

  /** From the file system's root or a directory right below it, a path that leads up comes down by its plain part. */
  lemma {:induction false} UpAndDown(done: seq<string>, parts: seq<string>)
    requires |done| <= 1 && Plain(done) && Normal(false, parts) && parts != [] && parts[0] == DOTDOT
    ensures Plain(parts[Ups(parts)..]) && NormFrom(true, done, parts) == parts[Ups(parts)..]
    decreases parts
  {
    var rest := parts[1..];
    assert Push(true, done, DOTDOT) == [];
    assert Normal(false, rest) by {
      forall k | 0 <= k < |rest| && rest[k] == DOTDOT ensures forall i | 0 <= i < k :: rest[i] == DOTDOT {
        assert forall i | 0 <= i < k :: rest[i] == parts[i + 1];
      }
    }
    if rest != [] && rest[0] == DOTDOT {
      UpAndDown([], rest);
    } else {
      NormalPlain(false, rest);
      NormPlainTail(true, [], rest);
    }
    assert parts[Ups(parts)..] == rest[Ups(rest)..];
  }

  /** A path that leads up is found inside the root that has the name of its first plain part, if there is one, and
      outside a root with another name. */
  lemma {:induction false} LeadingUp(recorded: Path, root: Path, a: Path)
    requires !StaysBelow(recorded) && Resolved(root) && Resolved(a) && |root.parts| <= 1
    ensures var up := Norm(recorded).parts;
      var down := Path(true, up[Ups(up)..]);
      && Plain(down.parts) && Norm(Path(true, root.parts + up)) == down
      && Rebase(recorded, root, a) ==
           if Contains(root, down) then Inside(Path(true, root.parts + up)) else External
  {
    var up := Norm(recorded).parts;
    NormIsNormal(false, [], recorded.parts);
    NormPlain(a);
    NormConcat(true, [], root.parts, up);
    NormPlain(root);
    UpAndDown(root.parts, up);
    assert Tail(a, Path(true, a.parts + up)) == up;
  }

  lemma {:induction false} LeadingUpBreaks(recorded: Path) returns (a: Path, c: Path)
    requires !StaysBelow(recorded)
    ensures Resolved(a) && Resolved(c) && !Composes(recorded, a, a, c)
  {
    hide NormFrom, RebaseWith, Rebase, Checked;
    var up := Norm(recorded).parts;
    var down := up[Ups(up)..];
    LeadingUp(recorded, Path(true, []), Path(true, []));
    a := Path(true, if down == [] then [] else [down[0]]);
    var other := (if down == [] then "" else down[0]) + "c";
    assert other[|other| - 1] == 'c' && other != DOTDOT;
    c := Path(true, [other]);
    LeadingUp(recorded, a, a);
    LeadingUp(recorded, c, a);
    assert down != [] ==> c.parts[0] != down[0];
    assert !Contains(c, Path(true, down));
    var moved := Path(true, a.parts + up);
    NormPlain(Path(true, down));
    RebaseKeepsRelative(moved, c, a);
  }

  /** Rebasing composes for all roots if and only if the recorded path does not lead up: a path that leads up is
      accepted in a root with the name of its first plain part and moves on, but leads out of any other root. */
  lemma {:induction false} ComposesExactly(recorded: Path)
    ensures StaysBelow(recorded) <==>
      forall a, b, c | Resolved(a) && Resolved(b) && Resolved(c) :: Composes(recorded, a, b, c)
  {
    if StaysBelow(recorded) {
      forall a, b, c | Resolved(a) && Resolved(b) && Resolved(c) ensures Composes(recorded, a, b, c) {
        RebaseComposes(recorded, a, b, c);
      }
    } else {
      var a, c := LeadingUpBreaks(recorded);
    }
  }

  lemma {:induction false} NormConcat(abs: bool, done: seq<string>, a: seq<string>, b: seq<string>)
    ensures NormFrom(abs, done, a + b) == NormFrom(abs, NormFrom(abs, done, a), b)
    decreases a
  {
    if a == [] {
      assert a + b == b;
    } else {
      assert (a + b)[1..] == a[1..] + b;
      NormConcat(abs, Push(abs, done, a[0]), a[1..], b);
    }
  }
}
