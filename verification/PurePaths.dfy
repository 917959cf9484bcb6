/** Lexical paths as `pathlib` keeps them. */
module PurePaths {

  /** Absolute or not, and the parts without `.` and empty ones. */
  datatype Path = Path(abs: bool, parts: seq<string>)

  const DOTDOT := ".."

  /** The parts of a slash-separated text, without empty and `.` parts. */
  function Parts(text: string, current: string := ""): seq<string> {
    if text == [] then Part(current)
    else if text[0] == '/' then Part(current) + Parts(text[1..])
    else Parts(text[1..], current + [text[0]])
  }

  function Part(text: string): seq<string> {
    if text == "" || text == "." then [] else [text]
  }

  function ParsePath(text: string): Path {
    Path(text != "" && text[0] == '/', Parts(text))
  }

  lemma {:induction false} PartsConcat(name: string, rest: string, current: string)
    requires '/' !in name
    ensures Parts(name, current) == Part(current + name)
    ensures Parts(name + "/" + rest, current) == Part(current + name) + Parts(rest)
    decreases name
  {
    var text := name + "/" + rest;
    if name == "" {
      assert text[0] == '/' && text[1..] == rest && current + name == current;
    } else {
      assert text[1..] == name[1..] + "/" + rest && current + [name[0]] + name[1..] == current + name;
      PartsConcat(name[1..], rest, current + [name[0]]);
    }
  }

  /** A text is read name by name; a leading slash makes it absolute. */
  lemma {:induction false} ParseExactly(name: string, rest: string)
    requires '/' !in name
    ensures var parts := if name in ["", "."] then [] else [name];
      && ParsePath(name) == Path(false, parts)
      && ParsePath(name + "/" + rest) == Path(name == "", parts + ParsePath(rest).parts)
  {
    PartsConcat(name, rest, "");
    assert "" + name == name;
    assert name != "" ==> name[0] in name;
    assert (name + "/" + rest)[0] == if name == "" then '/' else name[0];
  }

  /** `base / other`: an absolute right operand discards the left one. */
  function Join(base: Path, other: Path): Path {
    if other.abs then other else Path(base.abs, base.parts + other.parts)
  }

  /** `path` stays at or below `root` whatever the directories on the way are. */
  predicate Under(root: Path, path: Path) {
    root.abs == path.abs && root.parts <= path.parts && DOTDOT !in path.parts[|root.parts|..]
  }
}
