/** The comment stripper for Gemini's settings files (src/metaproc/adapters/gemini_cli.py): the loop
    refines a lexer, the lexing of a text is unique, and stripping twice is stripping once. */
module CommentStripper {

  // ----- searching, as `str.find`

  /** The first newline at or after `from`, or the end of the text. */
  function NewlineFrom(s: string, from: nat): (r: nat)
    requires from <= |s|
    ensures from <= r <= |s| && (r < |s| ==> s[r] == '\n')
    ensures forall i | from <= i < r :: s[i] != '\n'
    decreases |s| - from
  {
    if from == |s| || s[from] == '\n' then from else NewlineFrom(s, from + 1)
  }

  predicate ClosesAt(s: string, i: nat) {
    i + 1 < |s| && s[i] == '*' && s[i + 1] == '/'
  }

  /** Just behind the first block end at or after `from`, or the end of the text. */
  function BehindBlock(s: string, from: nat): (r: nat)
    ensures from <= |s| ==> from <= r <= |s|
    ensures (from + 2 <= r && ClosesAt(s, r - 2)) || (r == |s| && forall i: nat | from <= i :: !ClosesAt(s, i))
    ensures forall i: nat | from <= i && i + 2 < r :: !ClosesAt(s, i)
    decreases |s| - from
  {
    if from >= |s| then |s| else if ClosesAt(s, from) then from + 2 else BehindBlock(s, from + 1)
  }

  predicate LineStart(s: string) { |s| >= 2 && s[0] == '/' && s[1] == '/' }
  predicate BlockStart(s: string) { |s| >= 2 && s[0] == '/' && s[1] == '*' }

  // ----- the loop

  /** What one round of the loop does at the start of a text: the number of characters it consumes,
      whether it keeps them, and whether it ends inside a string. */
  datatype Step = Step(length: nat, keeps: bool, inString: bool)

  function NextStep(s: string, inString: bool): (r: Step)
    requires s != []
    ensures 0 < r.length <= |s|
  {
    if inString then
      if s[0] == '\\' then Step(if |s| == 1 then 1 else 2, true, true) else Step(1, true, s[0] != '"')
    else if s[0] == '"' then Step(1, true, true)
    else if LineStart(s) then Step(NewlineFrom(s, 0), false, false)
    else if BlockStart(s) then Step(BehindBlock(s, 2), false, false)
    else Step(1, true, false)
  }

  /** What is kept of a text, outside or inside of a string. */
  function Kept(s: string, inString: bool): string
    decreases |s|
  {
    if s == [] then []
    else
      var step := NextStep(s, inString);
      (if step.keeps then s[..step.length] else []) + Kept(s[step.length..], step.inString)
  }

  lemma {:induction false} NewlineShift(text: string, index: nat, from: nat)
    requires index + from <= |text|
    ensures NewlineFrom(text, index + from) == index + NewlineFrom(text[index..], from)
    decreases |text| - from
  {
    if index + from < |text| { NewlineShift(text, index, from + 1); }
  }

  lemma {:induction false} BlockShift(text: string, index: nat, from: nat)
    requires index + from <= |text|
    ensures BehindBlock(text, index + from) == index + BehindBlock(text[index..], from)
    decreases |text| - from
  {
    if index + from < |text| {
      assert ClosesAt(text, index + from) == ClosesAt(text[index..], from);
      BlockShift(text, index, from + 1);
    }
  }

  /** One round of the loop at `index`. */
  lemma {:induction false} Round(text: string, index: nat, inString: bool, kept: string)
    requires index < |text|
    ensures var s := text[index..];
      var step := NextStep(s, inString);
      var piece := if step.keeps then text[index..index + step.length] else [];
      kept + Kept(s, inString) == (kept + piece) + Kept(text[index + step.length..], step.inString)
  {
    var s := text[index..];
    var n := NextStep(s, inString).length;
    assert text[index..index + n] == s[..n] && text[index + n..] == s[n..];
  }

  lemma {:induction false} KeptStep(s: string, inString: bool)
    requires s != []
    ensures var step := NextStep(s, inString);
      Kept(s, inString) == (if step.keeps then s[..step.length] else []) + Kept(s[step.length..], step.inString)
  {
  }

  lemma {:induction false} NothingKept(inString: bool)
    ensures Kept([], inString) == []
  {
  }

  lemma {:induction false} RoundLength(text: string, index: nat)
    requires index < |text|
    ensures var s := text[index..];
      && (LineStart(s) ==> index + NextStep(s, false).length == NewlineFrom(text, index))
      && (BlockStart(s) ==> index + NextStep(s, false).length == BehindBlock(text, index + 2))
  {
    NewlineShift(text, index, 0);
    if BlockStart(text[index..]) { BlockShift(text, index, 2); }
  }

  /** `_strip_json_comments`. */
  method StripJsonComments(text: string) returns (kept: string)
    ensures kept == Strip(text)
  {
    hide Kept, BehindBlock, NewlineFrom;
    kept := [];
    var index, inString := 0, false;
    assert text[0..] == text;
    while index < |text|
      invariant 0 <= index <= |text|
      invariant kept + Kept(text[index..], inString) == Kept(text, false)
      decreases |text| - index
    {
      var c := text[index];
      Round(text, index, inString, kept);
      RoundLength(text, index);
      ghost var step := NextStep(text[index..], inString);
      if inString {
        if c == '\\' {
          var two := if index + 2 <= |text| then index + 2 else |text|;
          kept := kept + text[index..two];
          index := two;
        } else {
          kept := kept + [c];
          index := index + 1;
        }
        inString := c != '"';
      } else if c == '"' {
        inString := true;
        kept := kept + [c];
        index := index + 1;
      } else if index + 1 < |text| && c == '/' && text[index + 1] == '/' {
        index := NewlineFrom(text, index);
      } else if index + 1 < |text| && c == '/' && text[index + 1] == '*' {
        index := BehindBlock(text, index + 2);
      } else {
        kept := kept + [c];
        index := index + 1;
      }
    }
    assert text[index..] == [];
    NothingKept(inString);
    KeptIsStrip(text);
  }

  // ----- the lexer

  datatype Token = Quoted(text: string) | Other(c: char) | Line(text: string) | Block(text: string)

  function TokenText(t: Token): string {
    match t
    case Quoted(text) => text
    case Other(c) => [c]
    case Line(text) => text
    case Block(text) => text
  }

  lemma {:induction false} SpellCons(t: Token, tokens: seq<Token>)
    ensures Spell([t] + tokens) == TokenText(t) + Spell(tokens)
    ensures WithoutComments([t] + tokens) == if t.Line? || t.Block? then WithoutComments(tokens)
                                             else [t] + WithoutComments(tokens)
  {
    assert ([t] + tokens)[1..] == tokens;
  }

  function Spell(tokens: seq<Token>): string {
    if tokens == [] then [] else TokenText(tokens[0]) + Spell(tokens[1..])
  }

  /** The length of a string that is open at the start of `s`, up to and with its closing quote. */
  function BodyLength(s: string): (r: nat)
    ensures r <= |s|
  {
    if s == [] then 0
    else if s[0] == '\\' then (if |s| == 1 then 1 else 2 + BodyLength(s[2..]))
    else if s[0] == '"' then 1
    else 1 + BodyLength(s[1..])
  }

  function NextToken(s: string): (t: Token)
    requires s != []
    ensures 0 < |TokenText(t)| <= |s| && TokenText(t) == s[..|TokenText(t)|]
  {
    if s[0] == '"' then Quoted(s[..1 + BodyLength(s[1..])])
    else if LineStart(s) then Line(s[..NewlineFrom(s, 0)])
    else if BlockStart(s) then Block(s[..BehindBlock(s, 2)])
    else Other(s[0])
  }

  function Lex(s: string): seq<Token>
    decreases |s|
  {
    if s == [] then [] else [NextToken(s)] + Lex(s[|TokenText(NextToken(s))|..])
  }

  function WithoutComments(tokens: seq<Token>): seq<Token> {
    if tokens == [] then []
    else (if tokens[0].Line? || tokens[0].Block? then [] else [tokens[0]]) + WithoutComments(tokens[1..])
  }

  /** Lex the text, drop the comments, spell out the rest: strings survive verbatim. */
  function Strip(text: string): string {
    Spell(WithoutComments(Lex(text)))
  }

  lemma {:induction false} InsideIsBody(s: string)
    ensures Kept(s, true) == s[..BodyLength(s)] + Kept(s[BodyLength(s)..], false)
    decreases |s|
  {
    hide Kept;
    NothingKept(true);
    NothingKept(false);
    if s != [] {
      var step := NextStep(s, true);
      var rest := s[step.length..];
      KeptStep(s, true);
      if step.inString {
        var n := BodyLength(rest);
        InsideIsBody(rest);
        assert BodyLength(s) == step.length + n;
        assert s[..step.length + n] == s[..step.length] + rest[..n];
        assert s[step.length + n..] == rest[n..];
        var front, kept := s[..step.length], Kept(rest[n..], false);
        assert front + (rest[..n] + kept) == (front + rest[..n]) + kept;
      }
    }
  }

  /** The loop refines the lexer. */
  lemma {:induction false} KeptIsStrip(s: string)
    ensures Kept(s, false) == Strip(s)
    decreases |s|
  {
    hide Kept;
    NothingKept(false);
    if s != [] {
      var t := NextToken(s);
      var rest := s[|TokenText(t)|..];
      KeptStep(s, false);
      KeptIsStrip(rest);
      SpellCons(t, Lex(rest));
      SpellCons(t, WithoutComments(Lex(rest)));
      assert Lex(s) == [t] + Lex(rest);
      if s[0] == '"' {
        StringKept(s);
      }
    }
  }

  lemma {:induction false} StringKept(s: string)
    requires s != [] && s[0] == '"'
    ensures var n := |TokenText(NextToken(s))|; Kept(s, false) == s[..n] + Kept(s[n..], false)
  {
    hide Kept;
    var body := s[1..];
    var n := BodyLength(body);
    KeptStep(s, false);
    InsideIsBody(body);
    assert s[..1] + (body[..n] + Kept(body[n..], false)) == (s[..1] + body[..n]) + Kept(body[n..], false);
    assert body[n..] == s[n + 1..] && s[..n + 1] == s[..1] + body[..n];
  }

  // ----- what lexing means

  /** The character at `i` of a string token is taken literally because of a backslash. */
  predicate Escaped(q: string, i: nat)
    requires i < |q|
  {
    i > 1 && q[i - 1] == '\\' && !Escaped(q, i - 1)
  }

  ghost predicate EndsString(q: string, i: nat)
    requires i < |q|
  {
    i > 0 && q[i] == '"' && !Escaped(q, i)
  }

  ghost predicate EndsBlock(text: string, i: nat) {
    i + 2 <= |text| && text[i..i + 2] == "*/"
  }

  lemma {:induction false} ClosesExactly(s: string)
    ensures forall i: nat :: ClosesAt(s, i) <==> EndsBlock(s, i)
    ensures (LineStart(s) <==> "//" <= s) && (BlockStart(s) <==> "/*" <= s)
  {
    assert forall i: nat | i + 2 <= |s| :: s[i..i + 2] == [s[i], s[i + 1]];
    assert "*/" == ['*', '/'];
  }

  lemma {:induction false} ClosesAlike(text: string, s: string)
    requires text <= s
    ensures forall i: nat | i + 2 <= |text| :: ClosesAt(text, i) == ClosesAt(s, i)
  {
  }

  /** A token in front of `rest`, said without reference to how it is found. */
  ghost predicate Fits(t: Token, rest: string) {
    match t
    case Other(c) => c != '"' && !(c == '/' && rest != [] && rest[0] in {'/', '*'})
    case Quoted(q) =>
      && q != [] && q[0] == '"'
      && (forall i: nat | i < |q| - 1 :: !EndsString(q, i))
      && (EndsString(q, |q| - 1) || rest == [])
    case Line(text) =>
      "//" <= text && '\n' !in text && (rest == [] || rest[0] == '\n')
    case Block(text) =>
      && "/*" <= text
      && (forall i: nat | 2 <= i && i + 2 < |text| :: !EndsBlock(text, i))
      && ((|text| >= 4 && EndsBlock(text, |text| - 2)) || rest == [])
  }

  ghost predicate Lexing(tokens: seq<Token>) {
    tokens == [] || (Fits(tokens[0], Spell(tokens[1..])) && Lexing(tokens[1..]))
  }

  lemma {:induction false} EscapedPrefix(q: string, r: string, i: nat)
    requires i < |q| && q <= r
    ensures Escaped(q, i) == Escaped(r, i)
    decreases i
  {
    if i > 1 { EscapedPrefix(q, r, i - 1); }
  }

  /** Inside a string, a position behind an unescaped character starts afresh. */
  lemma {:induction false} BodyEnd(q: string, at: nat)
    requires 0 < at <= |q| && (at < |q| ==> !Escaped(q, at))
    ensures var n := at + BodyLength(q[at..]);
      && (forall i: nat | at <= i < n - 1 :: !EndsString(q, i))
      && ((n > at && EndsString(q, n - 1)) || (n == |q| && forall i: nat | at <= i < |q| :: !EndsString(q, i)))
    decreases |q| - at
  {
    if at < |q| {
      var s := q[at..];
      if s[0] == '\\' {
        if |s| > 1 {
          assert Escaped(q, at + 1) && !EndsString(q, at + 1);
          assert at + 2 < |q| ==> !Escaped(q, at + 2);
          assert s[2..] == q[at + 2..];
          BodyEnd(q, at + 2);
        }
      } else if s[0] != '"' {
        assert s[1..] == q[at + 1..];
        BodyEnd(q, at + 1);
      }
    }
  }

  lemma {:induction false} NextFits(s: string)
    requires s != []
    ensures Fits(NextToken(s), s[|TokenText(NextToken(s))|..])
  {
    var t := NextToken(s);
    if s[0] == '"' {
      BodyEnd(s, 1);
      forall i: nat | i < |t.text| ensures EndsString(t.text, i) == EndsString(s, i) {
        EscapedPrefix(t.text, s, i);
      }
    } else if t.Block? {
      ClosesAlike(t.text, s);
      ClosesExactly(t.text);
      if |t.text| < |s| { assert ClosesAt(s, |t.text| - 2); }
    } else if t.Line? {
      ClosesExactly(t.text);
    }
  }

  lemma {:induction false} SpellLex(s: string)
    ensures Spell(Lex(s)) == s
    decreases |s|
  {
    hide NextToken;
    if s != [] {
      var t := NextToken(s);
      var n := |TokenText(t)|;
      var rest := s[n..];
      SpellLex(rest);
      SpellCons(t, Lex(rest));
      assert Lex(s) == [t] + Lex(rest);
      assert s == s[..n] + rest;
    }
  }

  lemma {:induction false} LexFits(s: string)
    ensures Lexing(Lex(s))
    decreases |s|
  {
    if s != [] {
      var n := |TokenText(NextToken(s))|;
      LexFits(s[n..]);
      SpellLex(s[n..]);
      NextFits(s);
      assert Lex(s)[1..] == Lex(s[n..]);
    }
  }

  /** Two tokens that fit at the start of the same text are the same. */
  lemma {:induction false} FitsOnce(t: Token, rest: string, u: Token, rest': string)
    requires Fits(t, rest) && Fits(u, rest') && TokenText(t) + rest == TokenText(u) + rest'
    ensures t == u && rest == rest'
  {
    var s := TokenText(t) + rest;
    var a, b := |TokenText(t)|, |TokenText(u)|;
    assert TokenText(t) == s[..a] && TokenText(u) == s[..b] && rest == s[a..] && rest' == s[b..];
    assert s[0] == TokenText(t)[0] == TokenText(u)[0];
    NotShorter(t, u, s);
    NotShorter(u, t, s);
    SameStart(t, u, s);
    hide Fits;
  }

  lemma {:induction false} NotShorter(t: Token, u: Token, s: string)
    requires TokenText(t) <= s && TokenText(u) <= s
    requires Fits(t, s[|TokenText(t)|..]) && Fits(u, s[|TokenText(u)|..])
    ensures |TokenText(t)| >= |TokenText(u)|
  {
    var a, b := |TokenText(t)|, |TokenText(u)|;
    SameStart(t, u, s);
    match t {
      case Other(c) =>
      case Quoted(q) =>
        forall i: nat | i < a ensures EndsString(q, i) == EndsString(s, i) { EscapedPrefix(q, s, i); }
        forall i: nat | i < b ensures EndsString(u.text, i) == EndsString(s, i) { EscapedPrefix(u.text, s, i); }
      case Line(text) =>
        assert forall i | 0 <= i < b :: s[i] == u.text[i];
      case Block(text) =>
        ClosesAlike(text, s);
        ClosesAlike(u.text, s);
        ClosesExactly(text);
        ClosesExactly(u.text);
    }
  }

  /** The first two characters decide the kind of token. */
  lemma {:induction false} SameStart(t: Token, u: Token, s: string)
    requires TokenText(t) <= s && TokenText(u) <= s
    requires Fits(t, s[|TokenText(t)|..]) && Fits(u, s[|TokenText(u)|..])
    ensures t.Other? == u.Other? && t.Quoted? == u.Quoted? && t.Line? == u.Line? && t.Block? == u.Block?
  {
    assert s[0] == TokenText(t)[0] == TokenText(u)[0];
    assert |TokenText(t)| >= 2 ==> s[1] == TokenText(t)[1];
    assert |TokenText(u)| >= 2 ==> s[1] == TokenText(u)[1];
    assert |TokenText(t)| == 1 && |s| > 1 ==> s[1] == s[1..][0];
  }

  /** The lexing of a text is unique: `Lex` finds the one that there is. */
  lemma {:induction false} LexUnique(tokens: seq<Token>)
    requires Lexing(tokens)
    ensures Lex(Spell(tokens)) == tokens
    decreases tokens
  {
    if tokens != [] {
      var s, rest := Spell(tokens), Spell(tokens[1..]);
      LexUnique(tokens[1..]);
      assert s == TokenText(tokens[0]) + rest;
      SameFirst(tokens[0], rest, s);
      hide Lexing, Fits, TokenText, NextToken, Spell;
      assert Lex(s) == [tokens[0]] + Lex(rest);
      assert tokens == [tokens[0]] + tokens[1..];
    }
  }

  lemma {:induction false} SameFirst(t: Token, rest: string, s: string)
    requires Fits(t, rest) && s == TokenText(t) + rest
    ensures s != [] && NextToken(s) == t && s[|TokenText(t)|..] == rest
  {
    assert s != [];
    hide Fits, NextToken, TokenText;
    var n := |TokenText(NextToken(s))|;
    NextFits(s);
    assert s == TokenText(NextToken(s)) + s[n..];
    FitsOnce(t, rest, NextToken(s), s[n..]);
    assert s[|TokenText(t)|..] == rest;
  }

  // ----- stripping twice

  /** A text without comments is its own stripping. */
  lemma {:induction false} NoCommentsLeft(tokens: seq<Token>)
    requires Lexing(tokens)
    ensures Lexing(WithoutComments(tokens))
    ensures tokens != [] && !tokens[0].Line? && !tokens[0].Block? ==>
      Spell(WithoutComments(tokens)) != [] && Spell(WithoutComments(tokens))[0] == Spell(tokens)[0]
    decreases tokens
  {
    if tokens != [] {
      var t, more := tokens[0], tokens[1..];
      var rest := WithoutComments(more);
      NoCommentsLeft(more);
      EmptyRest(more);
      assert tokens == [t] + more;
      SpellCons(t, more);
      if !t.Line? && !t.Block? {
        SpellCons(t, rest);
        assert Spell(more) == [] ==> Spell(rest) == [];
        assert ([t] + rest)[1..] == rest;
        if t == Other('/') && rest != [] {
          assert Spell(more) != [] && Spell(more)[0] == TokenText(more[0])[0];
          assert !more[0].Line? && !more[0].Block?;
        }
        assert Fits(t, Spell(rest));
      }
    }
  }

  lemma {:induction false} EmptyRest(tokens: seq<Token>)
    requires Lexing(tokens)
    ensures Spell(tokens) == [] <==> tokens == []
  {
  }

  lemma {:induction false} NoneOrAll(tokens: seq<Token>, t: Token)
    ensures t in WithoutComments(tokens) <==> t in tokens && !t.Line? && !t.Block?
    decreases tokens
  {
    if tokens != [] {
      NoneOrAll(tokens[1..], t);
      assert tokens == [tokens[0]] + tokens[1..];
    }
  }

  /** What is left of a text has exactly its tokens that are no comments. */
  lemma {:induction false} StripExactly(text: string, t: Token)
    ensures t in Lex(Strip(text)) <==> t in Lex(text) && !t.Line? && !t.Block?
  {
    LexFits(text);
    NoCommentsLeft(Lex(text));
    LexUnique(WithoutComments(Lex(text)));
    NoneOrAll(Lex(text), t);
  }

  /** Stripping is idempotent, for every text. */
  lemma {:induction false} StripTwice(text: string)
    ensures Strip(Strip(text)) == Strip(text)
  {
    var kept := WithoutComments(Lex(text));
    LexFits(text);
    NoCommentsLeft(Lex(text));
    LexUnique(kept);
    DropNone(Lex(text));
  }

  lemma {:induction false} DropNone(tokens: seq<Token>)
    ensures WithoutComments(WithoutComments(tokens)) == WithoutComments(tokens)
    decreases tokens
  {
    if tokens != [] {
      DropNone(tokens[1..]);
      var rest := WithoutComments(tokens[1..]);
      if !tokens[0].Line? && !tokens[0].Block? {
        assert ([tokens[0]] + rest)[1..] == rest;
      } else {
        assert WithoutComments(tokens) == rest;
      }
    }
  }
}
