/** The `.env` template printed from the registry of variables (src/metaproc/commands/env.py,
    `render_env_template`) and the loader that reads a copy of it (src/metaproc/cli.py, `_load_dotenv`). */
module EnvTemplate {
  import opened Common
  import opened PyText

  datatype Kind = Real | Secret | Tunable | Optional

  datatype Member = Member(name: string, kind: Kind, description: string, example: Option<string>)

  type Env = map<string, string>

  // ----- printing

  predicate IsEmpty(example: Option<string>) {
    example.None? || example.value == ""
  }

  /** An optional member without an example is left out. */
  predicate Printed(m: Member) {
    !(m.kind.Optional? && IsEmpty(m.example))
  }

  function ExampleOf(m: Member): string {
    if m.kind.Secret? && IsEmpty(m.example) then "REPLACE_WITH_" + m.name
    else match m.example case None => "None" case Some(text) => text
  }

  /** The wrapped description of a member, in lines; how it is broken does not matter here. */
  type Wrap = Member -> seq<string>

  function Comments(lines: seq<string>): seq<string> {
    if lines == [] then [] else ["# " + lines[0]] + Comments(lines[1..])
  }

  function Assignment(m: Member): string {
    (if m.kind.Optional? then "# " else "") + "export " + m.name + "=" + ExampleOf(m)
  }

  function Entry(wrap: Wrap, m: Member): seq<string> {
    if Printed(m) then Comments(wrap(m)) + [Assignment(m), ""] else []
  }

  function Entries(wrap: Wrap, members: seq<Member>): seq<string> {
    if members == [] then [] else Entries(wrap, members[..|members| - 1]) + Entry(wrap, members[|members| - 1])
  }

  /** `"\n".join`. */
  function Join(lines: seq<string>): string {
    if lines == [] then "" else if |lines| == 1 then lines[0] else lines[0] + "\n" + Join(lines[1..])
  }

  /** `render_env_template`, from its header. */
  method Render(header: string, wrap: Wrap, members: seq<Member>) returns (text: string)
    ensures text == Rstrip(Join([header] + Entries(wrap, members))) + "\n"
  {
    hide Rstrip, Join, Entry, Printed;
    var out := [header];
    for k := 0 to |members|
      invariant out == [header] + Entries(wrap, members[..k])
    {
      assert members[..k + 1] == members[..k] + [members[k]] && members[..k + 1][..k] == members[..k];
      var entry := RenderEntry(wrap, members[k]);
      out := out + entry;
    }
    assert members[..|members|] == members;
    text := Rstrip(Join(out)) + "\n";
  }

  method RenderEntry(wrap: Wrap, m: Member) returns (out: seq<string>)
    ensures out == Entry(wrap, m)
  {
    if m.kind.Optional? && IsEmpty(m.example) { return []; }
    out := [];
    var body := wrap(m);
    for i := 0 to |body|
      invariant out == Comments(body[..i])
    {
      CommentsNext(body, i);
      out := out + ["# " + body[i]];
    }
    assert body[..|body|] == body;
    out := out + [Assignment(m)];
    out := out + [""];
  }

  lemma {:induction false} CommentsNext(lines: seq<string>, i: nat)
    requires i < |lines|
    ensures Comments(lines[..i + 1]) == Comments(lines[..i]) + ["# " + lines[i]]
    decreases i
  {
    if i > 0 {
      assert lines[..i + 1][1..] == lines[1..][..i] && lines[..i][1..] == lines[1..][..i - 1];
      CommentsNext(lines[1..], i - 1);
    }
  }

  // ----- loading

  function FirstBreak(s: string): (n: nat)
    ensures n <= |s| && (n < |s| ==> IsBreak(s[n])) && forall i | 0 <= i < n :: !IsBreak(s[i])
  {
    if s == "" || IsBreak(s[0]) then 0 else FirstBreak(s[1..]) + 1
  }

  /** A carriage return and the newline after it are one line end. */
  function Width(s: string, n: nat): (k: nat)
    requires n < |s|
    ensures 1 <= k <= 2 && n + k <= |s|
  {
    if s[n] == '\r' && n + 1 < |s| && s[n + 1] == '\n' then 2 else 1
  }

  /** `str.splitlines`. */
  function SplitLines(s: string): seq<string>
    decreases |s|
  {
    if s == "" then []
    else
      var n := FirstBreak(s);
      if n == |s| then [s]
      else [s[..n]] + SplitLines(s[n + Width(s, n)..])
  }

  /** What one line defines. */
  function ParseLine(raw: string): Option<(string, string)> {
    ParseStripped(Strip(raw))
  }

  function ParseStripped(line: string): Option<(string, string)> {
    if line == "" || line[0] == '#' then None
    else ParseBody(if "export " <= line then Lstrip(line[7..]) else line)
  }

  function ParseBody(body: string): Option<(string, string)> {
    var n := FirstOf(body, '=');
    if n == |body| || Strip(body[..n]) == "" then None
    else Some((Strip(body[..n]), Strip(body[n + 1..])))
  }

  function Defined(env: Env, line: string): Env {
    match ParseLine(line)
    case None => env
    case Some(d) => if d.0 in env then env else env[d.0 := d.1]
  }

  function LoadLines(lines: seq<string>, env: Env): Env {
    if lines == [] then env else LoadLines(lines[1..], Defined(env, lines[0]))
  }

  /** The nearest `.env`: `candidates` are the files from the working directory upward. */
  function Nearest(candidates: seq<Option<string>>): Option<string> {
    if candidates == [] then None else if candidates[0].Some? then candidates[0] else Nearest(candidates[1..])
  }

  class Process {
    var environ: Env

    /** `_load_dotenv`. */
    method LoadDotenv(candidates: seq<Option<string>>)
      modifies this
      ensures environ == match Nearest(candidates)
        case None => old(environ)
        case Some(text) => LoadLines(SplitLines(text), old(environ))
    {
      for k := 0 to |candidates|
        invariant environ == old(environ) && Nearest(candidates[k..]) == Nearest(candidates)
      {
        assert candidates[k..][0] == candidates[k] && candidates[k..][1..] == candidates[k + 1..];
        if candidates[k].Some? {
          var lines := SplitLines(candidates[k].value);
          for i := 0 to |lines|
            invariant LoadLines(lines[i..], environ) == LoadLines(lines, old(environ))
          {
            assert lines[i..][0] == lines[i] && lines[i..][1..] == lines[i + 1..];
            DefineFrom(lines[i]);
          }
          return;
        }
      }
    }

    method DefineFrom(raw: string)
      modifies this
      ensures environ == Defined(old(environ), raw)
    {
      hide Strip, Lstrip, FirstOf;
      var line := Strip(raw);
      if line == "" || line[0] == '#' { return; }
      if "export " <= line { line := Lstrip(line[7..]); }
      var n := FirstOf(line, '=');
      if n < |line| && Strip(line[..n]) != "" && Strip(line[..n]) !in environ {
        environ := environ[Strip(line[..n]) := Strip(line[n + 1..])];
      }
    }
  }

  // ----- the loader reads what the printer writes

  predicate IsName(s: string) {
    s != "" && s[0] != '#' && forall i | 0 <= i < |s| :: !IsSpace(s[i]) && s[i] != '='
  }

  predicate OneLine(s: string) {
    forall i | 0 <= i < |s| :: !IsBreak(s[i])
  }

  /** Members are identifiers with one-line examples. */
  ghost predicate Registry(wrap: Wrap, members: seq<Member>) {
    forall k | 0 <= k < |members| ::
      && IsName(members[k].name) && OneLine(ExampleOf(members[k]))
      && forall i | 0 <= i < |wrap(members[k])| :: OneLine(wrap(members[k])[i])
  }

  /** Each line with its end. */
  function Text(lines: seq<string>): string {
    if lines == [] then "" else lines[0] + "\n" + Text(lines[1..])
  }

  lemma {:induction false} SplitText(lines: seq<string>)
    requires forall k | 0 <= k < |lines| :: OneLine(lines[k])
    ensures SplitLines(Text(lines)) == lines
  {
    if lines != [] {
      SplitFirst(lines[0], Text(lines[1..]));
      SplitText(lines[1..]);
    }
  }

  lemma {:induction false} SplitFirst(line: string, rest: string)
    requires OneLine(line)
    ensures SplitLines(line + "\n" + rest) == [line] + SplitLines(rest)
  {
    var s, n := line + "\n" + rest, |line|;
    assert s[n] == '\n' && s[..n] == line && s[n + 1..] == rest && s[n..][0] == '\n';
    FirstBreakAt(s, n);
  }

  lemma {:induction false} FirstBreakAt(s: string, n: nat)
    requires n < |s| && IsBreak(s[n]) && OneLine(s[..n])
    ensures FirstBreak(s) == n
  {
    assert forall i | 0 <= i < n :: s[i] == s[..n][i];
  }

  lemma {:induction false} JoinText(lines: seq<string>)
    ensures Join(lines + [""]) == Text(lines)
  {
    if lines != [] {
      assert (lines + [""])[1..] == lines[1..] + [""];
      JoinText(lines[1..]);
    }
  }

  lemma {:induction false} BlankLine(env: Env, raw: string)
    requires Blank(raw)
    ensures Defined(env, raw) == env
  {
    assert "" + raw == raw;
    RstripBlank("", raw);
  }

  /** White space after the text, and where it breaks into lines, defines nothing. */
  lemma {:induction false} LoadBlank(env: Env, w: string)
    requires Blank(w)
    ensures LoadLines(SplitLines(w), env) == env
    decreases |w|
  {
    if w != "" {
      var n := FirstBreak(w);
      if n < |w| {
        BlankLine(env, w[..n]);
        LoadBlank(env, w[n + Width(w, n)..]);
      } else {
        BlankLine(env, w);
      }
    }
  }

  lemma {:induction false} TrailingBlank(env: Env, s: string, w: string)
    requires Blank(w) && (s != "" ==> !IsSpace(s[|s| - 1]))
    ensures LoadLines(SplitLines(s + w), env) == LoadLines(SplitLines(s), env)
    decreases |s|
  {
    hide SplitLines, FirstBreak, LoadLines;
    if s == "" {
      assert s + w == w;
      LoadBlank(env, w);
      LoadBlank(env, s);
    } else if FirstBreak(s) < |s| {
      var first, rest := SplitOnto(s, w);
      LoadFirst(first, SplitLines(rest), env);
      LoadFirst(first, SplitLines(rest + w), env);
      TrailingBlank(Defined(env, first), rest, w);
    } else {
      LastLine(env, s, w);
    }
  }

  lemma {:induction false} LoadFirst(line: string, lines: seq<string>, env: Env)
    ensures LoadLines([line] + lines, env) == LoadLines(lines, Defined(env, line))
  {
    assert ([line] + lines)[1..] == lines;
  }

  lemma {:induction false} SplitOnto(s: string, w: string) returns (first: string, rest: string)
    requires FirstBreak(s) < |s| && !IsSpace(s[|s| - 1])
    ensures SplitLines(s) == [first] + SplitLines(rest) && SplitLines(s + w) == [first] + SplitLines(rest + w)
    ensures |rest| < |s| && rest != "" && rest[|rest| - 1] == s[|s| - 1]
  {
    hide SplitLines, FirstBreak;
    var n, t := FirstBreak(s), s + w;
    first, rest := s[..n], s[n + Width(s, n)..];
    assert t[..n] == s[..n];
    FirstBreakAt(t, n);
    assert n + 1 < |s| && t[n] == s[n] && t[n + 1] == s[n + 1];
    assert Width(t, n) == Width(s, n) && n + Width(s, n) < |s|;
    SplitAt(s);
    SplitAt(t);
    assert t[n + Width(s, n)..] == rest + w;
  }

  lemma {:induction false} LastLine(env: Env, s: string, w: string)
    requires s != "" && OneLine(s) && Blank(w)
    ensures LoadLines(SplitLines(s + w), env) == Defined(env, s) == LoadLines(SplitLines(s), env)
  {
    SplitOne(s);
    var m := FirstBreak(w);
    SameLine(env, s, w[..m]);
    LineThen(s, w);
    hide ParseLine, SplitLines, OneLine, IsSpace, IsBreak, Defined, FirstBreak, LoadLines, Width;
    BlankAfter(env, s, "");
    if m < |w| {
      BlankAfter(env, s + w[..m], w[m + Width(w, m)..]);
    } else {
      assert w[..m] == w;
      BlankAfter(env, s + w, "");
    }
  }

  lemma {:induction false} BlankAfter(env: Env, line: string, rest: string)
    requires Blank(rest)
    ensures LoadLines([line] + SplitLines(rest), env) == Defined(env, line) == LoadLines([line], env)
  {
    LoadFirst(line, SplitLines(rest), env);
    LoadFirst(line, [], env);
    LoadBlank(Defined(env, line), rest);
    assert [line] + [] == [line];
  }

  lemma {:induction false} SplitOne(s: string)
    requires s != "" && OneLine(s)
    ensures SplitLines(s) == [s]
  {
    assert FirstBreak(s) == |s|;
  }

  lemma {:induction false} SameLine(env: Env, s: string, w: string)
    requires Blank(w)
    ensures Defined(env, s + w) == Defined(env, s)
  {
    hide Rstrip, Lstrip, FirstOf, ParseStripped;
    RstripBlank(s, w);
    assert Strip(s + w) == Strip(s);
  }

  /** The first line of a text that goes on after a line without a break. */
  lemma {:induction false} LineThen(s: string, w: string)
    requires s != "" && OneLine(s)
    ensures var m := FirstBreak(w);
      SplitLines(s + w) == if m < |w| then [s + w[..m]] + SplitLines(w[m + Width(w, m)..]) else [s + w]
  {
    hide SplitLines, FirstBreak;
    var t, m := s + w, FirstBreak(w);
    if m < |w| {
      var rest := w[m + Width(w, m)..];
      assert t[..|s| + m] == s + w[..m] && t[|s| + m] == w[m];
      assert |s| + m + 1 < |t| ==> t[|s| + m + 1] == w[m + 1];
      assert t[|s| + m + Width(w, m)..] == rest;
      OneLineBoth(s, w[..m]);
      FirstBreakAt(t, |s| + m);
      SplitAt(t);
    } else {
      OneLineBoth(s, w);
      SplitOne(t);
    }
  }

  lemma {:induction false} SplitAt(s: string)
    requires FirstBreak(s) < |s|
    ensures SplitLines(s) == [s[..FirstBreak(s)]] + SplitLines(s[FirstBreak(s) + Width(s, FirstBreak(s))..])
  {
    hide FirstBreak, Width;
  }

  lemma {:induction false} OneLineBoth(s: string, t: string)
    requires OneLine(s) && OneLine(t)
    ensures OneLine(s + t)
  {
  }

  lemma {:induction false} LoadConcat(a: seq<string>, b: seq<string>, env: Env)
    ensures LoadLines(a + b, env) == LoadLines(b, LoadLines(a, env))
  {
    if a == [] {
      assert a + b == b;
    } else {
      assert (a + b)[1..] == a[1..] + b;
      LoadConcat(a[1..], b, Defined(env, a[0]));
    }
  }

  lemma {:induction false} CommentLine(env: Env, rest: string)
    ensures Defined(env, "#" + rest) == env
  {
    RstripOnto("#", rest);
  }

  lemma {:induction false} CommentLines(env: Env, lines: seq<string>)
    ensures LoadLines(Comments(lines), env) == env
  {
    if lines != [] {
      assert "# " + lines[0] == "#" + (" " + lines[0]);
      CommentLine(env, " " + lines[0]);
      CommentLines(env, lines[1..]);
    }
  }

  lemma {:induction false} RstripTwice(s: string)
    ensures Rstrip(Rstrip(s)) == Rstrip(s)
  {
  }

  /** An exported name is defined as its stripped value. */
  lemma {:induction false} ExportLine(env: Env, name: string, value: string)
    requires IsName(name)
    ensures ParseLine("export " + name + "=" + value) == Some((name, Strip(value)))
  {
    hide ParseStripped;
    var head, v := "export " + name + "=", Rstrip(value);
    RstripOnto(head, value);
    assert Strip(head + value) == head + v;
    StrippedExport(name, v);
    RstripTwice(value);
  }

  lemma {:induction false} StrippedExport(name: string, v: string)
    requires IsName(name)
    ensures ParseStripped("export " + name + "=" + v) == Some((name, Strip(v)))
  {
    var line, body := "export " + name + "=" + v, name + "=" + v;
    assert line[..7] == "export " && line[7..] == body;
    PlainName(name, v);
    FirstOfAt(body, '=', |name|);
    hide Strip, Lstrip, FirstOf;
  }

  lemma {:induction false} PlainName(name: string, v: string)
    requires IsName(name)
    ensures Lstrip(name + "=" + v) == name + "=" + v && Strip(name) == name
    ensures var body := name + "=" + v;
      '=' !in body[..|name|] && body[..|name|] == name && body[|name| + 1..] == v
  {
    assert (name + "=" + v)[0] == name[0];
  }

  /** Loading the entries into any environment keeps what it has and adds the printed members that are not
      optional, and nothing else. */
  ghost predicate Adds(members: seq<Member>, env: Env, r: Env) {
    && (forall name | name in env :: name in r && r[name] == env[name])
    && (forall k | 0 <= k < |members| && !members[k].kind.Optional? ::
          members[k].name in r
          && (members[k].name !in env ==> r[members[k].name] == Strip(ExampleOf(members[k]))))
    && (forall name | name in r && name !in env ::
          exists k :: 0 <= k < |members| && !members[k].kind.Optional? && members[k].name == name)
  }

  ghost predicate UniqueNames(members: seq<Member>) {
    UniqueBy(members, (m: Member) => m.name)
  }

  lemma {:induction false} TwoLines(env: Env, a: string, b: string)
    ensures LoadLines([a, b], env) == Defined(Defined(env, a), b)
  {
    assert [a, b][1..] == [b] && [b][1..] == [];
    assert LoadLines([b], Defined(env, a)) == LoadLines([], Defined(Defined(env, a), b));
  }

  lemma {:induction false} EntryDefines(wrap: Wrap, env: Env, m: Member)
    requires IsName(m.name)
    ensures LoadLines(Entry(wrap, m), env)
      == if m.kind.Optional? || m.name in env then env else env[m.name := Strip(ExampleOf(m))]
  {
    hide Strip;
    if Printed(m) {
      LoadConcat(Comments(wrap(m)), [Assignment(m), ""], env);
      CommentLines(env, wrap(m));
      TwoLines(env, Assignment(m), "");
      var next := Defined(env, Assignment(m));
      BlankLine(next, "");
      if m.kind.Optional? {
        var rest := " export " + m.name + "=" + ExampleOf(m);
        assert Assignment(m) == "#" + rest;
        CommentLine(env, rest);
      } else {
        assert Assignment(m) == "export " + m.name + "=" + ExampleOf(m);
        ExportLine(env, m.name, ExampleOf(m));
        assert next == if m.name in env then env else env[m.name := Strip(ExampleOf(m))];
      }
    }
  }

  lemma {:induction false} EntriesDefine(wrap: Wrap, members: seq<Member>, env: Env)
    requires Registry(wrap, members) && UniqueNames(members)
    ensures Adds(members, env, LoadLines(Entries(wrap, members), env))
    decreases |members|
  {
    if members != [] {
      hide Strip, ExampleOf, Entry;
      var n := |members| - 1;
      var before, m := members[..n], members[n];
      EntriesDefine(wrap, before, env);
      var mid := LoadLines(Entries(wrap, before), env);
      LoadConcat(Entries(wrap, before), Entry(wrap, m), env);
      EntryDefines(wrap, mid, m);
      AddsNext(members, env, mid);
    }
  }

  lemma {:induction false} AddsNext(members: seq<Member>, env: Env, mid: Env)
    requires members != [] && UniqueNames(members) && Adds(members[..|members| - 1], env, mid)
    ensures var m := members[|members| - 1];
      Adds(members, env, if m.kind.Optional? || m.name in mid then mid else mid[m.name := Strip(ExampleOf(m))])
  {
    hide Strip, ExampleOf;
    var n := |members| - 1;
    var before, m := members[..n], members[n];
    var r := if m.kind.Optional? || m.name in mid then mid else mid[m.name := Strip(ExampleOf(m))];
    assert m.name in mid ==> m.name in env;
    forall name | name in r && name !in env
      ensures exists k :: 0 <= k < |members| && !members[k].kind.Optional? && members[k].name == name
    {
      if name in mid {
        var k :| 0 <= k < n && !before[k].kind.Optional? && before[k].name == name;
        assert members[k].name == name;
      } else {
        assert members[n].name == name;
      }
    }
    forall k | 0 <= k < |members| && !members[k].kind.Optional?
      ensures members[k].name in r
      ensures members[k].name !in env ==> r[members[k].name] == Strip(ExampleOf(members[k]))
    {
      if k < n { assert before[k] == members[k]; }
    }
  }

  ghost predicate OneLines(lines: seq<string>) {
    forall k | 0 <= k < |lines| :: OneLine(lines[k])
  }

  lemma {:induction false} CommentsOneLine(lines: seq<string>)
    requires OneLines(lines)
    ensures OneLines(Comments(lines))
  {
    if lines != [] {
      CommentsOneLine(lines[1..]);
    }
  }

  lemma {:induction false} AssignmentOneLine(m: Member)
    requires IsName(m.name) && OneLine(ExampleOf(m))
    ensures OneLine(Assignment(m))
  {
    hide ExampleOf;
    var mark := if m.kind.Optional? then "# " else "";
    OneLineBoth(mark, "export ");
    OneLineBoth(mark + "export ", m.name);
    OneLineBoth(mark + "export " + m.name, "=");
    OneLineBoth(mark + "export " + m.name + "=", ExampleOf(m));
  }

  /** The lines of the entries, the last of which is empty. */
  lemma {:induction false} EntriesShape(wrap: Wrap, members: seq<Member>)
    requires Registry(wrap, members)
    ensures var lines := Entries(wrap, members); OneLines(lines) && (lines == [] || lines[|lines| - 1] == "")
    decreases |members|
  {
    if members != [] {
      hide ExampleOf, Assignment, Comments;
      var m := members[|members| - 1];
      EntriesShape(wrap, members[..|members| - 1]);
      CommentsOneLine(wrap(m));
      AssignmentOneLine(m);
      hide OneLine, Registry;
      AppendLines(Entries(wrap, members[..|members| - 1]), Entry(wrap, m));
    }
  }

  lemma {:induction false} AppendLines(a: seq<string>, b: seq<string>)
    requires OneLines(a) && OneLines(b)
    ensures OneLines(a + b)
  {
  }

  lemma {:induction false} TextConcat(a: seq<string>, b: seq<string>)
    ensures Text(a + b) == Text(a) + Text(b)
  {
    if a == [] {
      assert a + b == b;
    } else {
      assert (a + b)[1..] == a[1..] + b;
      TextConcat(a[1..], b);
    }
  }

  lemma {:induction false} JoinedLines(header: seq<string>, wrap: Wrap, members: seq<Member>, env: Env)
    requires Registry(wrap, members) && OneLines(header)
    ensures LoadLines(SplitLines(Join([Text(Comments(header))] + Entries(wrap, members))), env)
         == LoadLines(Entries(wrap, members), env)
  {
    hide SplitLines, Entries, Comments;
    var top, entries := Comments(header), Entries(wrap, members);
    CommentsOneLine(header);
    CommentLines(env, header);
    EntriesShape(wrap, members);
    if entries == [] {
      assert [Text(top)] + entries == [Text(top)];
      SplitText(top);
    } else {
      var body := entries[..|entries| - 1];
      assert entries == body + [""];
      JoinedText(top, body);
      SplitText(top + [""] + body);
      LoadConcat(top + [""], body, env);
      LoadConcat(top, [""], env);
      LoadConcat(body, [""], env);
      BlankOne(env);
      BlankOne(LoadLines(body, env));
    }
  }

  lemma {:induction false} JoinedText(top: seq<string>, body: seq<string>)
    ensures Join([Text(top)] + (body + [""])) == Text(top + [""] + body)
  {
    var lines := [Text(top)] + body;
    assert [Text(top)] + (body + [""]) == lines + [""];
    JoinText(lines);
    assert lines[1..] == body;
    TextConcat(top + [""], body);
    TextConcat(top, [""]);
    assert Text([""]) == "\n";
  }

  lemma {:induction false} BlankOne(env: Env)
    ensures LoadLines([""], env) == env
  {
    BlankLine(env, "");
  }

  /** The value that a member shows: its example if there is one, else a placeholder for a secret. */
  ghost predicate Shown(m: Member, value: string) {
    if m.example.Some? && m.example.value != "" then value == Strip(m.example.value)
    else if m.kind.Secret? then value == "REPLACE_WITH_" + m.name
    else value == if m.example.None? then "None" else ""
  }

  lemma {:induction false} ShownExactly(m: Member)
    requires IsName(m.name)
    ensures Shown(m, Strip(ExampleOf(m)))
  {
    var placeholder := "REPLACE_WITH_" + m.name;
    assert placeholder[|placeholder| - 1] == m.name[|m.name| - 1] && placeholder[0] == 'R';
  }

  ghost predicate AllShown(members: seq<Member>, env: Env, r: Env) {
    forall k | 0 <= k < |members| && !members[k].kind.Optional? && members[k].name !in env ::
      members[k].name in r && Shown(members[k], r[members[k].name])
  }

  lemma {:induction false} AddsShown(wrap: Wrap, members: seq<Member>, env: Env, r: Env)
    requires Registry(wrap, members) && Adds(members, env, r)
    ensures AllShown(members, env, r)
  {
    hide Shown, Strip, ExampleOf;
    forall k | 0 <= k < |members| ensures Shown(members[k], Strip(ExampleOf(members[k]))) { ShownExactly(members[k]); }
  }

  /** An optional member is left out without an example, and commented out with one. */
  lemma {:induction false} OptionalEntry(wrap: Wrap, m: Member)
    requires m.kind.Optional?
    ensures Entry(wrap, m) == [] <==> m.example.None? || m.example.value == ""
    ensures Entry(wrap, m) != [] ==> "# export " + m.name + "=" + m.example.value in Entry(wrap, m)
  {
    if Printed(m) {
      var lines := Entry(wrap, m);
      assert lines[|lines| - 2] == "# " + "export " + m.name + "=" + m.example.value;
      assert "# " + "export " == "# export ";
    }
  }

  /** Loading a rendered template, whatever its header of comments, keeps the environment and adds exactly the
      members that are not optional, with their stripped examples or placeholders. */
  lemma {:induction false} RoundTrip(header: seq<string>, wrap: Wrap, members: seq<Member>, env: Env)
    requires Registry(wrap, members) && UniqueNames(members)
    requires forall k | 0 <= k < |header| :: OneLine(header[k])
    ensures var text := Rstrip(Join([Text(Comments(header))] + Entries(wrap, members))) + "\n";
      var loaded := LoadLines(SplitLines(text), env);
      Adds(members, env, loaded) && AllShown(members, env, loaded)
  {
    hide AllShown, Registry;
    hide SplitLines, LoadLines, Join, Entries, Adds, Rstrip;
    var entries := Entries(wrap, members);
    var joined := Join([Text(Comments(header))] + entries);
    var text := Rstrip(joined) + "\n";
    TrailingBlank(env, Rstrip(joined), "\n");
    TrailingBlank(env, Rstrip(joined), joined[|Rstrip(joined)|..]);
    assert joined == Rstrip(joined) + joined[|Rstrip(joined)|..];
    JoinedLines(header, wrap, members, env);
    EntriesDefine(wrap, members, env);
    AddsShown(wrap, members, env, LoadLines(SplitLines(text), env));
  }
}
