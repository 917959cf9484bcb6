/** The few string methods of Python that the models read texts with. */
module PyText {

  /** `str.isspace`, which is what `str.strip` drops. */
  predicate IsSpace(c: char) {
    || c == ' ' || IsBreak(c) || c == '\t' || c == '\U{1f}' || c == '\U{a0}' || c == '\U{1680}'
    || '\U{2000}' <= c <= '\U{200a}' || c == '\U{202f}' || c == '\U{205f}' || c == '\U{3000}'
  }

  /** A character that `str.splitlines` ends a line at. */
  predicate IsBreak(c: char) {
    '\n' <= c <= '\r' || '\U{1c}' <= c <= '\U{1e}' || c == '\U{85}' || c == '\U{2028}' || c == '\U{2029}'
  }

  /** The two tables by code point. */
  lemma {:induction false} SpaceTable(c: char)
    ensures var n := c as int;
      && (IsBreak(c) <==> 10 <= n <= 13 || 28 <= n <= 30 || n in [133, 8232, 8233])
      && (IsSpace(c) <==>
           9 <= n <= 13 || 28 <= n <= 32 || n in [133, 160, 5760, 8232, 8233, 8239, 8287, 12288] || 8192 <= n <= 8202)
  {
  }

  predicate Blank(s: string) {
    forall i | 0 <= i < |s| :: IsSpace(s[i])
  }

  function Lstrip(s: string): string {
    if s != "" && IsSpace(s[0]) then Lstrip(s[1..]) else s
  }

  function Rstrip(s: string): (r: string)
    ensures r <= s && Blank(s[|r|..])
    ensures r != "" ==> !IsSpace(r[|r| - 1])
  {
    if s != "" && IsSpace(s[|s| - 1]) then
      var r := Rstrip(s[..|s| - 1]);
      assert s[|r|..] == s[..|s| - 1][|r|..] + [s[|s| - 1]];
      r
    else s
  }

  function Strip(s: string): string {
    Lstrip(Rstrip(s))
  }

  lemma {:induction false} LstripOnly(w: string, body: string)
    requires Blank(w) && (body == "" || !IsSpace(body[0]))
    ensures Lstrip(w + body) == body
  {
    if w == "" {
      assert w + body == body;
    } else {
      assert (w + body)[1..] == w[1..] + body && (w + body)[0] == w[0];
      LstripOnly(w[1..], body);
    }
  }

  lemma {:induction false} RstripBlank(s: string, w: string)
    requires Blank(w)
    ensures Rstrip(s + w) == Rstrip(s)
  {
    if w == "" {
      assert s + w == s;
    } else {
      assert (s + w)[..|s + w| - 1] == s + w[..|w| - 1];
      RstripBlank(s, w[..|w| - 1]);
    }
  }

  lemma {:induction false} RstripOnto(s: string, t: string)
    requires s != "" && !IsSpace(s[|s| - 1])
    ensures Rstrip(s + t) == s + Rstrip(t)
  {
    var w := t[|Rstrip(t)|..];
    assert t == Rstrip(t) + w && s + t == (s + Rstrip(t)) + w;
    RstripBlank(s + Rstrip(t), w);
  }

  /** `str.split` on one character. */
  function Split(s: string, c: char): (r: seq<string>)
    ensures r != []
  {
    if s == "" then [""]
    else
      var rest := Split(s[1..], c);
      if s[0] == c then [""] + rest else [[s[0]] + rest[0]] + rest[1..]
  }

  function FirstOf(s: string, c: char): (n: nat)
    ensures n <= |s| && c !in s[..n] && (n < |s| ==> s[n] == c)
  {
    if s == "" || s[0] == c then 0
    else
      var n := FirstOf(s[1..], c) + 1;
      assert s[..n] == [s[0]] + s[1..][..n - 1];
      n
  }

  lemma {:induction false} FirstOfAt(s: string, c: char, n: nat)
    requires n < |s| && s[n] == c && c !in s[..n]
    ensures FirstOf(s, c) == n
  {
    var m := FirstOf(s, c);
    assert forall i | 0 <= i < n :: s[i] == s[..n][i] && s[i] != c;
    assert forall i | 0 <= i < m :: s[i] == s[..m][i] && s[i] != c;
  }

  lemma {:induction false} SplitPieces(s: string, c: char, n: nat)
    requires n <= |s| && c !in s[..n] && (n < |s| ==> s[n] == c)
    ensures Split(s, c) == if n < |s| then [s[..n]] + Split(s[n + 1..], c) else [s]
  {
    if n == 0 {
      if s != "" { assert s[..0] == "" && Split(s, c)[0] == ""; }
    } else {
      var t := s[1..];
      assert t[..n - 1] == s[..n][1..] && s[0] == s[..n][0];
      SplitPieces(t, c, n - 1);
      if n < |s| {
        assert t[n - 1 + 1..] == s[n + 1..];
        assert Split(t, c)[0] == t[..n - 1] && Split(t, c)[1..] == Split(s[n + 1..], c);
        assert [s[0]] + t[..n - 1] == s[..n];
      } else {
        assert [s[0]] + t == s;
      }
    }
  }

  lemma {:induction false} SplitJoin(left: string, right: string, c: char)
    ensures Split(left + [c] + right, c) == Split(left, c) + Split(right, c)
  {
    var s := left + [c] + right;
    if left == "" {
      assert s[1..] == right;
    } else {
      assert s[1..] == left[1..] + [c] + right;
      SplitJoin(left[1..], right, c);
    }
  }
}
