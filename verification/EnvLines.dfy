/** What a `.env` file means, line by line (src/metaproc/cli.py, `_load_dotenv`). */
module EnvLines {
  import opened Common
  import opened PyText
  import opened EnvTemplate

  // ----- lines

  ghost predicate IsEnd(e: string) {
    e == "\r\n" || (|e| == 1 && IsBreak(e[0]))
  }

  /** Lines with their ends, and a last line without one. */
  ghost function Ended(lines: seq<string>, ends: seq<string>, last: string): string
    requires |lines| == |ends|
  {
    if lines == [] then last else lines[0] + ends[0] + Ended(lines[1..], ends[1..], last)
  }

  /** A carriage return is a line end of its own only where no newline follows. */
  ghost predicate Delimited(lines: seq<string>, ends: seq<string>, last: string)
    requires |lines| == |ends|
  {
    if lines == [] then OneLine(last)
    else
      && OneLine(lines[0]) && IsEnd(ends[0]) && Delimited(lines[1..], ends[1..], last)
      && (ends[0] == "\r" ==> !("\n" <= Ended(lines[1..], ends[1..], last)))
  }

  /** A text is split into the lines it is put together from, and an empty last line does not count. */
  lemma {:induction false} SplitExactly(lines: seq<string>, ends: seq<string>, last: string)
    requires |lines| == |ends| && Delimited(lines, ends, last)
    ensures SplitLines(Ended(lines, ends, last)) == if last == "" then lines else lines + [last]
  {
    if lines == [] {
      assert OneLine(last[..|last|]);
    } else {
      SplitExactly(lines[1..], ends[1..], last);
      SplitEnd(lines[0], ends[0], Ended(lines[1..], ends[1..], last));
      hide SplitLines, OneLine;
      assert lines == [lines[0]] + lines[1..];
    }
  }

  lemma {:induction false} SplitEnd(line: string, end: string, rest: string)
    requires OneLine(line) && IsEnd(end) && (end == "\r" ==> !("\n" <= rest))
    ensures SplitLines(line + end + rest) == [line] + SplitLines(rest)
  {
    var s, n := line + end + rest, |line|;
    assert s[..n] == line && s[n] == end[0];
    assert s[n + |end|..] == rest;
    FirstBreakAt(s, n);
    assert rest != "" ==> s[n + |end|] == rest[0];
    assert "\n" <= rest <==> rest != "" && rest[0] == '\n';
    assert Width(s, n) == |end|;
  }

  // ----- one line

  /** What is left of a stripped line after a leading `export` and the space behind it. */
  ghost predicate Exported(line: string, body: string) {
    if |line| >= 7 && line[..7] == "export " then
      (body == "" || !IsSpace(body[0])) && exists w :: Blank(w) && line == "export " + w + body
    else body == line
  }

  /** A body with an `=` outside its name part gives the stripped sides of the first one. */
  ghost predicate Sides(body: string, name: string, value: string) {
    exists left, right ::
      body == left + "=" + right && '=' !in left && name == Strip(left) && name != "" && value == Strip(right)
  }

  /** A line assigns a value to a name: it is no comment, and has the two on the sides of its first `=`. */
  ghost predicate Assigns(raw: string, name: string, value: string) {
    var line := Strip(raw);
    && line != "" && line[0] != '#'
    && exists body :: Exported(line, body) && Sides(body, name, value)
  }

  lemma {:induction false} LstripSplit(s: string) returns (w: string)
    ensures Blank(w) && s == w + Lstrip(s)
    ensures Lstrip(s) == "" || !IsSpace(Lstrip(s)[0])
  {
    hide IsSpace;
    if s != "" && IsSpace(s[0]) {
      var v := LstripSplit(s[1..]);
      w := [s[0]] + v;
      assert s == [s[0]] + s[1..];
      assert [s[0]] + (v + Lstrip(s[1..])) == w + Lstrip(s[1..]);
    } else {
      w := "";
      assert w + s == s;
    }
  }

  lemma {:induction false} ExportedExactly(line: string, body: string)
    ensures Exported(line, body) <==> body == if "export " <= line then Lstrip(line[7..]) else line
  {
    assert "export " <= line <==> |line| >= 7 && line[..7] == "export ";
    if "export " <= line {
      var rest := line[7..];
      var w := LstripSplit(rest);
      hide IsSpace, Lstrip;
      assert line == "export " + rest && "export " + w + Lstrip(rest) == "export " + (w + Lstrip(rest));
      if Exported(line, body) {
        var w :| Blank(w) && line == "export " + w + body;
        assert line[7..] == w + body;
        LstripOnly(w, body);
      }
    }
  }

  lemma {:induction false} SplitsAt(body: string, left: string, right: string)
    ensures body == left + "=" + right && '=' !in left <==>
      var n := FirstOf(body, '='); n < |body| && left == body[..n] && right == body[n + 1..]
  {
    var n := FirstOf(body, '=');
    if body == left + "=" + right && '=' !in left {
      assert body[..|left|] == left && body[|left|] == '=' && body[|left| + 1..] == right;
      FirstOfAt(body, '=', |left|);
    }
    if n < |body| { assert body == body[..n] + "=" + body[n + 1..]; }
  }

  lemma {:induction false} SidesExactly(body: string, name: string, value: string)
    ensures var n := FirstOf(body, '=');
      Sides(body, name, value) <==>
        n < |body| && name == Strip(body[..n]) && name != "" && value == Strip(body[n + 1..])
  {
    hide Strip, FirstOf;
    var n := FirstOf(body, '=');
    if Sides(body, name, value) {
      var left, right :| body == left + "=" + right && '=' !in left && name == Strip(left) && name != ""
        && value == Strip(right);
      SplitsAt(body, left, right);
    }
    if n < |body| {
      SplitsAt(body, body[..n], body[n + 1..]);
    }
  }

  lemma {:induction false} BodyExactly(body: string, name: string, value: string)
    ensures ParseBody(body) == Some((name, value)) <==> Sides(body, name, value)
  {
    SidesExactly(body, name, value);
    hide Strip, FirstOf, Sides;
  }

  /** The loader reads from a line exactly what it assigns. */
  lemma {:induction false} LineExactly(raw: string, name: string, value: string)
    ensures ParseLine(raw) == Some((name, value)) <==> Assigns(raw, name, value)
  {
    var line := Strip(raw);
    var body := if "export " <= line then Lstrip(line[7..]) else line;
    BodyExactly(body, name, value);
    hide Strip, Lstrip, Exported, Sides, ParseBody;
    ExportedExactly(line, body);
    if Assigns(raw, name, value) {
      var b :| Exported(line, b) && Sides(b, name, value);
      ExportedExactly(line, b);
    }
  }

  /** The first line that assigns to the name gives its value. */
  ghost predicate FirstAssigns(lines: seq<string>, name: string, value: string) {
    exists k: nat :: FirstAt(lines, name, value, k)
  }

  ghost predicate FirstAt(lines: seq<string>, name: string, value: string, k: nat) {
    && k < |lines| && Assigns(lines[k], name, value)
    && forall j, v | 0 <= j < k :: !Assigns(lines[j], name, v)
  }

  /** What is defined before stays; anything else has the value of the first line that assigns to it. */
  lemma {:induction false} LoadExactly(lines: seq<string>, env: Env, name: string, value: string)
    ensures name in env ==> name in LoadLines(lines, env) && LoadLines(lines, env)[name] == env[name]
    ensures name !in env ==>
      (name in LoadLines(lines, env) && LoadLines(lines, env)[name] == value <==> FirstAssigns(lines, name, value))
    decreases lines
  {
    hide Assigns;
    if lines != [] {
      var first, rest := lines[0], lines[1..];
      LoadExactly(rest, Defined(env, first), name, value);
      OneLineDefines(env, first, name);
      if name !in env { FirstStep(env, lines, name, value); }
    }
  }

  lemma {:induction false} OneLineDefines(env: Env, line: string, name: string)
    ensures var next := Defined(env, line);
      && (name in env ==> name in next && next[name] == env[name])
      && (name !in env ==>
            (forall v :: name in next && next[name] == v <==> Assigns(line, name, v)))
  {
    hide Assigns, ParseLine;
    forall v ensures ParseLine(line) == Some((name, v)) <==> Assigns(line, name, v) { LineExactly(line, name, v); }
    if ParseLine(line).Some? { assert ParseLine(line) == Some((ParseLine(line).value.0, ParseLine(line).value.1)); }
  }

  lemma {:induction false} FirstStep(env: Env, lines: seq<string>, name: string, value: string)
    requires lines != [] && name !in env
    ensures FirstAssigns(lines, name, value) <==>
      if name in Defined(env, lines[0]) then Defined(env, lines[0])[name] == value
      else FirstAssigns(lines[1..], name, value)
  {
    var next := Defined(env, lines[0]);
    OneLineDefines(env, lines[0], name);
    hide Assigns, Defined;
    if name in next {
      assert Assigns(lines[0], name, next[name]);
      if next[name] == value { assert FirstAt(lines, name, value, 0); }
    } else {
      assert forall v :: !Assigns(lines[0], name, v);
      SkipFirst(lines, name, value);
    }
  }

  lemma {:induction false} SkipFirst(lines: seq<string>, name: string, value: string)
    requires lines != [] && forall v :: !Assigns(lines[0], name, v)
    ensures FirstAssigns(lines, name, value) <==> FirstAssigns(lines[1..], name, value)
  {
    var rest := lines[1..];
    hide Assigns;
    if k: nat :| FirstAt(lines, name, value, k) {
      assert forall j | 0 <= j < k - 1 :: rest[j] == lines[j + 1];
      assert FirstAt(rest, name, value, k - 1);
    }
    if k: nat :| FirstAt(rest, name, value, k) {
      assert forall j | 0 < j <= k :: lines[j] == rest[j - 1];
      assert FirstAt(lines, name, value, k + 1);
    }
  }

  /** Of the files from the working directory upward the first one counts. */
  lemma {:induction false} NearestExactly(candidates: seq<Option<string>>, text: string)
    ensures Nearest(candidates) == Some(text) <==> exists k: nat :: IsNearest(candidates, text, k)
    ensures Nearest(candidates).None? <==> forall k | 0 <= k < |candidates| :: candidates[k].None?
    decreases candidates
  {
    if candidates != [] {
      var rest := candidates[1..];
      NearestExactly(rest, text);
      assert forall k | 0 < k < |candidates| :: candidates[k] == rest[k - 1];
      assert forall k | 0 <= k < |rest| :: rest[k] == candidates[k + 1];
      if candidates[0] == Some(text) { assert IsNearest(candidates, text, 0); }
      if k: nat :| IsNearest(candidates, text, k) {
        assert k > 0 ==> candidates[0].None? && forall j | 0 <= j < k - 1 :: rest[j] == candidates[j + 1];
        assert k > 0 ==> IsNearest(rest, text, k - 1);
      }
      if candidates[0].None? {
        if k: nat :| IsNearest(rest, text, k) {
          assert forall j | 0 < j <= k :: candidates[j] == rest[j - 1];
          assert IsNearest(candidates, text, k + 1);
        }
      }
    }
  }

  ghost predicate IsNearest(candidates: seq<Option<string>>, text: string, k: nat) {
    k < |candidates| && candidates[k] == Some(text) && forall j | 0 <= j < k :: candidates[j].None?
  }
}
