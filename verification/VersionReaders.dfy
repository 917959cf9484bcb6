/** The two readers of versions on texts that are no dotted numbers: exactly when `>=` of the one
    (devtools/check_supply_chain.py) is the negation of "below" of the other (src/metaproc/adapters/gemini_cli.py). */
module VersionReaders {
  import opened Numerals
  import opened PyText
  import opened VersionOrder

  /** Both implementations accept a version against the same dotted minima. */
  ghost predicate ReadersAgree(version: string) {
    forall minimum: string | Dotted(minimum) ::
      MeetsAll(VersionKey(version), Split(">=" + minimum, ',')) <==> !BelowMinimum(version, minimum)
  }

  // ----- every release is read from some dotted number

  function Dots(r: Release): string
    requires r != []
  {
    if |r| == 1 then Spell(Base10, r[0]) else Spell(Base10, r[0]) + "." + Dots(r[1..])
  }

  lemma {:induction false} SpellNumber(n: nat)
    ensures var s := Spell(Base10, n);
      IsNumber(s) && Split(s, '.') == [s] && OnlyDigits(s) == s && Value(Base10, s) == n
  {
    var s := Spell(Base10, n);
    SpellValue(Base10, n);
    assert s[..|s|] == s && '.' !in s;
    SplitPieces(s, '.', |s|);
    DigitsKept(s);
  }

  lemma {:induction false} DotsRead(r: Release)
    requires r != []
    ensures Dotted(Dots(r)) && Leading(Split(Dots(r), '.')) == r
    decreases |r|
  {
    hide Split, Spell, Value, OnlyDigits;
    var first := Spell(Base10, r[0]);
    SpellNumber(r[0]);
    if |r| == 1 {
      assert Leading([first]) == [r[0]] + Leading([first][1..]);
      assert r == [r[0]];
    } else {
      DotsRead(r[1..]);
      SplitJoin(first, Dots(r[1..]), '.');
      var pieces := Split(Dots(r), '.');
      assert first + ['.'] + Dots(r[1..]) == Dots(r) && pieces == [first] + Split(Dots(r[1..]), '.');
      assert pieces[1..] == Split(Dots(r[1..]), '.') && r == [r[0]] + r[1..];
      assert forall k | 1 <= k < |pieces| :: pieces[k] == pieces[1..][k - 1];
    }
  }

  // ----- the operators

  function Symbol(op: Operator): string {
    match op
    case AtLeast => ">="
    case AtMost => "<="
    case Equal => "=="
    case NotEqual => "!="
    case Above => ">"
    case Under => "<"
  }

  ghost predicate InOrder(op: Operator, a: Release, b: Release) {
    match op
    case AtLeast => !Less(a, b)
    case AtMost => !Less(b, a)
    case Equal => Same(a, b)
    case NotEqual => !Same(a, b)
    case Above => Less(b, a)
    case Under => Less(a, b)
  }

  lemma {:induction false} HoldsExactly(op: Operator, a: Release, b: Release)
    ensures Holds(op, Compare(a, b)) <==> InOrder(op, a, b)
  {
    CompareSigns(a, b);
  }

  lemma {:induction false} Parsed(op: Operator, space: string, want: string)
    requires Blank(space) && want != "" && !IsSpace(want[0]) && want[0] != '='
    ensures ParseClause(Symbol(op) + (space + want)) == Clause(op, VersionKey(want))
  {
    hide VersionKey;
    var tail := space + want;
    var s := Symbol(op) + tail;
    LstripOnly(space, want);
    assert s[0] == Symbol(op)[0] && s[|Symbol(op)|..] == tail;
    assert tail[0] != '=' by { if space != "" { assert tail[0] == space[0]; } }
  }

  lemma {:induction false} KeyOfDots(r: Release)
    requires r != []
    ensures var s := Dots(r);
      VersionKey(s) == r && Lstrip(s) == s && Strip(s) == s && s != "" && !IsSpace(s[0]) && !IsSpace(s[|s| - 1])
      && s[0] != '=' && ',' !in s
  {
    var s := Dots(r);
    DotsRead(r);
    DottedChars(s);
    hide Split, Leading, DottedPrefix, Dots;
    NoSpaces(s);
    SameReading(s);
  }

  /** What a specifier of one operator asks of a dotted number: the order of the two sequences of components. */
  lemma {:induction false} OperatorExact(v: Release, op: Operator, space: string, r: Release)
    requires v != [] && r != [] && Blank(space)
    ensures MeetsAll(VersionKey(Dots(v)), Split(Symbol(op) + (space + Dots(r)), ',')) <==> InOrder(op, v, r)
  {
    var want := Dots(r);
    var s := Symbol(op) + (space + want);
    KeyOfDots(v);
    KeyOfDots(r);
    Parsed(op, space, want);
    HoldsExactly(op, v, r);
    hide Dots, VersionKey, Split, Compare, ParseClause, Strip, Holds, MeetsAll;
    ClauseChars(op, space, want);
    OneMet(v, s);
  }

  lemma {:induction false} ClauseChars(op: Operator, space: string, want: string)
    requires Blank(space) && want != "" && ',' !in want && !IsSpace(want[|want| - 1])
    ensures var s := Symbol(op) + (space + want); ',' !in s && s != "" && !IsSpace(s[0]) && !IsSpace(s[|s| - 1])
  {
    var s := Symbol(op) + (space + want);
    assert s[0] == Symbol(op)[0] && s[|s| - 1] == want[|want| - 1];
  }

  /** A clause that is not blank and starts with no operator cannot be met. */
  lemma {:induction false} NoOperator(got: Release, clause: string)
    requires var s := Strip(clause); s != "" && forall op: Operator :: !(Symbol(op) <= s)
    ensures !Meets(got, clause)
  {
    var s := Strip(clause);
    assert forall op: Operator :: |Symbol(op)| <= |s| ==> s[..|Symbol(op)|] != Symbol(op);
    assert Symbol(AtLeast) == ">=" && Symbol(AtMost) == "<=" && Symbol(Equal) == "==" && Symbol(NotEqual) == "!=";
    assert Symbol(Above) == ">" && Symbol(Under) == "<";
  }

  /** Operators without a version: the ordering ones of two characters ask for a version above or below the unreadable
      `=`, which is the release of zeros, and the others cannot be met. */
  lemma {:induction false} BareOperators(got: Release)
    ensures Meets(got, ">=") <==> Less([], got)
    ensures Meets(got, "<=") <==> Less(got, [])
    ensures !Meets(got, "==") && !Meets(got, "!=") && !Meets(got, ">") && !Meets(got, "<")
  {
    CompareSigns(got, []);
    assert ">="[1..] == "=" && "<="[1..] == "=" && ">="[2..] == "" && "<="[2..] == "" && "=="[2..] == "";
    assert "!="[2..] == "" && ">"[1..] == "" && "<"[1..] == "";
    NoSpaces("=");
    NoSpaces(">=");
    NoSpaces("<=");
    NoSpaces("==");
    NoSpaces("!=");
    NoSpaces(">");
    NoSpaces("<");
    hide Compare, Strip;
  }

  // ----- agreement of the readings

  lemma {:induction false} MinimumMet(version: string, minimum: string)
    requires Dotted(minimum)
    ensures MeetsAll(VersionKey(version), Split(">=" + minimum, ',')) <==>
      Compare(VersionKey(version), Leading(Split(minimum, '.'))) >= 0
  {
    hide Split, Compare, DottedPrefix, Strip, MeetsAll, Dotted, Leading;
    DottedChars(minimum);
    NoSpaces(minimum);
    SameReading(minimum);
    OneClause(VersionKey(version), minimum);
  }

  lemma {:induction false} CompareSigns(a: Release, b: Release)
    ensures Compare(a, b) < 0 <==> Less(a, b)
    ensures Compare(a, b) == 0 <==> Same(a, b)
    ensures Compare(a, b) > 0 <==> Less(b, a)
  {
    CompareExact(a, b, Max(|a|, |b|));
  }

  /** The two readings part at a dotted spelling of the larger one, or of anything above the first if the second
      reads nothing. */
  lemma {:induction false} Separating(version: string) returns (minimum: string)
    requires var l := Leading(Split(version, '.')); l == [] || !Same(VersionKey(version), l)
    ensures Dotted(minimum)
    ensures MeetsAll(VersionKey(version), Split(">=" + minimum, ',')) <==> BelowMinimum(version, minimum)
  {
    hide Split, Compare, Strip, MeetsAll, Dotted, Leading, VersionKey;
    var key, l := VersionKey(version), Leading(Split(version, '.'));
    var above := [At(key, 0) + 1];
    CompareSigns(key, l);
    CompareSigns(l, key);
    CompareSigns(key, key);
    CompareSigns(l, l);
    CompareSigns(key, above);
    assert LessAt(key, above, 0);
    var r := if l == [] then above else if Less(l, key) then key else l;
    assert Less(l, key) ==> key != [] by {
      if Less(l, key) { var k: nat :| LessAt(l, key, k); }
    }
    minimum := Dots(r);
    DotsRead(r);
    MinimumMet(version, minimum);
  }

  /** The implementations agree about a version if and only if both read something and the readings differ in trailing
      zeros at most. */
  lemma {:induction false} AgreeExactly(version: string)
    ensures ReadersAgree(version) <==>
      Leading(Split(version, '.')) != [] && Same(VersionKey(version), Leading(Split(version, '.')))
  {
    hide Split, Compare, Strip, MeetsAll, Dotted, Leading, VersionKey, BelowMinimum;
    var key, l := VersionKey(version), Leading(Split(version, '.'));
    if l != [] && Same(key, l) {
      forall minimum: string | Dotted(minimum)
        ensures MeetsAll(key, Split(">=" + minimum, ',')) <==> !BelowMinimum(version, minimum)
      {
        MinimumMet(version, minimum);
        SameComparison(version, minimum);
      }
    } else {
      var minimum := Separating(version);
    }
  }

  lemma {:induction false} SameComparison(version: string, minimum: string)
    requires var l := Leading(Split(version, '.')); l != [] && Same(VersionKey(version), l)
    ensures Compare(VersionKey(version), Leading(Split(minimum, '.'))) >= 0 <==> !BelowMinimum(version, minimum)
  {
    hide Split, Compare, Leading, VersionKey;
    var key, l, m := VersionKey(version), Leading(Split(version, '.')), Leading(Split(minimum, '.'));
    CompareSigns(key, m);
    CompareSigns(l, m);
    LessSame(key, l, m, m);
  }

  // ----- the condition on the text

  predicate NoDigit(s: string) {
    forall i | 0 <= i < |s| :: !Base10.Has(s[i])
  }

  predicate ZeroDigits(s: string) {
    forall i | 0 <= i < |s| && Base10.Has(s[i]) :: s[i] == '0'
  }

  /** The pieces up to the first one without a digit have no digits but zeros. */
  predicate OnlyZeros(pieces: seq<string>) {
    pieces == [] || NoDigit(pieces[0]) || (ZeroDigits(pieces[0]) && OnlyZeros(pieces[1..]))
  }

  /** After the dotted number at the front nothing counts: the first piece that is no number has no digits, or none
      after those it starts with and only zeros follow it, or no digits but zeros itself. */
  predicate CleanPieces(pieces: seq<string>) {
    pieces == [] || NoDigit(pieces[0])
    || if IsNumber(pieces[0]) then CleanPieces(pieces[1..])
       else (NoDigit(pieces[0][DigitRun(pieces[0])..]) || ZeroDigits(pieces[0])) && OnlyZeros(pieces[1..])
  }

  predicate CleanVersion(version: string) {
    var pieces := Split(Strip(version), '.');
    !NoDigit(pieces[0]) && CleanPieces(pieces)
  }

  lemma {:induction false} NothingKept(s: string)
    ensures OnlyDigits(s) == "" <==> NoDigit(s)
  {
    if s != "" {
      NothingKept(s[1..]);
      assert NoDigit(s) <==> !Base10.Has(s[0]) && NoDigit(s[1..]) by {
        assert forall i | 0 < i < |s| :: s[i] == s[1..][i - 1];
        assert forall i | 0 <= i < |s| - 1 :: s[1..][i] == s[i + 1];
      }
    }
  }

  lemma {:induction false} DigitsConcat(s: string, t: string)
    ensures OnlyDigits(s + t) == OnlyDigits(s) + OnlyDigits(t)
  {
    if s == "" {
      assert s + t == t;
    } else {
      assert (s + t)[1..] == s[1..] + t;
      DigitsConcat(s[1..], t);
    }
  }

  lemma {:induction false} ZeroValue(s: string)
    requires Base10.Spells(s)
    ensures Value(Base10, s) == 0 <==> forall i | 0 <= i < |s| :: s[i] == '0'
  {
    if s != "" { ZeroValue(s[..|s| - 1]); }
  }

  lemma {:induction false} ZeroKept(s: string)
    ensures (forall i | 0 <= i < |OnlyDigits(s)| :: OnlyDigits(s)[i] == '0') <==> ZeroDigits(s)
  {
    if s != "" {
      ZeroKept(s[1..]);
      var a, b := if Base10.Has(s[0]) then [s[0]] else "", OnlyDigits(s[1..]);
      assert ZeroDigits(s) <==> (Base10.Has(s[0]) ==> s[0] == '0') && ZeroDigits(s[1..]) by {
        assert forall i | 0 < i < |s| :: s[i] == s[1..][i - 1];
        assert forall i | 0 <= i < |s| - 1 :: s[1..][i] == s[i + 1];
      }
      assert OnlyDigits(s) == a + b;
      if forall i | 0 <= i < |a + b| :: (a + b)[i] == '0' {
        assert forall i | 0 <= i < |b| :: b[i] == (a + b)[|a| + i];
        assert a != "" ==> (a + b)[0] == s[0];
      }
    }
  }

  /** Digits after a number leave its value alone if and only if there are none or all digits are zeros. */
  lemma {:induction false} MoreDigits(s: string, t: string)
    requires Base10.Spells(s) && Base10.Spells(t)
    ensures Base10.Spells(s + t)
    ensures Value(Base10, s + t) >= Value(Base10, s)
    ensures Value(Base10, s + t) == Value(Base10, s) <==> t == "" || Value(Base10, s + t) == 0
    decreases |t|
  {
    if t == "" {
      assert s + t == s;
    } else {
      var n := |t| - 1;
      MoreDigits(s, t[..n]);
      assert s + t == (s + t[..n]) + [t[n]];
      ValueSnoc(Base10, s + t[..n], t[n]);
    }
  }

  lemma {:induction false} SameCons(x: nat, y: nat, a: Release, b: Release)
    ensures Same([x] + a, [y] + b) <==> x == y && Same(a, b)
  {
    var p, q := [x] + a, [y] + b;
    assert At(p, 0) == x && At(q, 0) == y;
    assert forall i: nat | i > 0 :: At(p, i) == At(a, i - 1) && At(q, i) == At(b, i - 1);
    assert forall i: nat :: At(a, i) == At(p, i + 1) && At(b, i) == At(q, i + 1);
  }

  lemma {:induction false} ZerosRead(pieces: seq<string>)
    ensures Same([], Leading(pieces)) <==> OnlyZeros(pieces)
    decreases pieces
  {
    if pieces != [] {
      var digits := OnlyDigits(pieces[0]);
      NothingKept(pieces[0]);
      if digits != "" {
        ZerosRead(pieces[1..]);
        ZeroKept(pieces[0]);
        ZeroValue(digits);
        ZeroHead(Value(Base10, digits), Leading(pieces[1..]));
      }
    }
  }

  lemma {:induction false} ZeroHead(y: nat, b: Release)
    ensures Same([], [y] + b) <==> y == 0 && Same([], b)
  {
    SameCons(0, y, [], b);
    assert forall i: nat :: At([0], i) == 0 && At([], i) == 0;
    assert [0] + [] == [0];
  }

  /** What the two readers make of a piece that is no number but has digits. */
  lemma {:induction false} PieceRead(piece: string)
    requires !NoDigit(piece) && !IsNumber(piece)
    ensures var n := DigitRun(piece);
      n < |piece| &&
      (Value(Base10, piece[..n]) == Value(Base10, OnlyDigits(piece)) <==> NoDigit(piece[n..]) || ZeroDigits(piece))
  {
    var n := DigitRun(piece);
    assert piece[..|piece|] == piece;
    assert piece == piece[..n] + piece[n..];
    DigitsConcat(piece[..n], piece[n..]);
    DigitsKept(piece[..n]);
    NothingKept(piece[n..]);
    MoreDigits(piece[..n], OnlyDigits(piece[n..]));
    ZeroValue(OnlyDigits(piece));
    ZeroKept(piece);
  }

  lemma {:induction false} RunOfPiece(s: string, n: nat)
    requires n <= |s| && (n < |s| ==> s[n] == '.')
    ensures DigitRun(s) <= n && DigitRun(s) == DigitRun(s[..n]) && s[..DigitRun(s)] == s[..n][..DigitRun(s)]
  {
    var m := DigitRun(s[..n]);
    assert s[..n][..m] == s[..m];
    if m < n { assert s[..n][m] == s[m]; }
    RunLength(s, m);
  }

  /** The readings from a piece on that is no number; the first one has read the digits that the piece starts with. */
  lemma {:induction false} PieceAlike(piece: string, rest: seq<string>, key: Release)
    requires !IsNumber(piece)
    requires key == if DigitRun(piece) == 0 then [] else [Value(Base10, piece[..DigitRun(piece)])]
    ensures Same(key, Leading([piece] + rest)) <==> CleanPieces([piece] + rest)
  {
    hide OnlyZeros, ZeroDigits, Same;
    var pieces := [piece] + rest;
    assert pieces[1..] == rest;
    NothingKept(piece);
    if NoDigit(piece) {
      assert DigitRun(piece) == 0 && Leading(pieces) == [];
      SameSelf([]);
    } else {
      PieceRead(piece);
      ZerosRead(rest);
      var x, y := Value(Base10, piece[..DigitRun(piece)]), Value(Base10, OnlyDigits(piece));
      assert Leading(pieces) == [y] + Leading(rest);
      if key == [] {
        ZeroHead(y, Leading(rest));
        assert piece[..0] == "" && x == 0;
      } else {
        assert [x] + [] == [x];
        SameCons(x, y, [], Leading(rest));
      }
    }
  }

  lemma {:induction false} SameSelf(r: Release)
    ensures Same(r, r)
  {
  }

  /** The readings of a text without surrounding space differ in trailing zeros at most if and only if it is clean. */
  lemma {:induction false} ReadingsAlike(s: string)
    ensures Same(DottedPrefix(s), Leading(Split(s, '.'))) <==> CleanPieces(Split(s, '.'))
    decreases |s|
  {
    var n := FirstOf(s, '.');
    SplitPieces(s, '.', n);
    var piece, pieces := s[..n], Split(s, '.');
    var rest := pieces[1..];
    assert pieces[0] == piece by { if n == |s| { assert piece == s; } }
    assert rest == if n < |s| then Split(s[n + 1..], '.') else [];
    RunOfPiece(s, n);
    NothingKept(piece);
    hide Split, NoDigit, ZeroDigits, OnlyZeros;
    if IsNumber(piece) {
      RunLength(s, n);
      DigitsKept(piece);
      var tail := if n < |s| then DottedPrefix(s[n + 1..]) else [];
      if n < |s| { ReadingsAlike(s[n + 1..]); }
      assert DottedPrefix(s) == [Value(Base10, piece)] + tail;
      SameCons(Value(Base10, piece), Value(Base10, piece), tail, Leading(rest));
      assert Base10.Has(piece[0]) && !NoDigit(piece);
    } else {
      assert DottedPrefix(s) == if DigitRun(piece) == 0 then [] else [Value(Base10, piece[..DigitRun(piece)])];
      PieceAlike(piece, rest, DottedPrefix(s));
      assert pieces == [piece] + rest;
    }
  }

  // ----- surrounding space

  lemma {:induction false} LeadingHead(p: string, q: string, a: seq<string>, b: seq<string>)
    requires OnlyDigits(p) == OnlyDigits(q) && Leading(a) == Leading(b)
    ensures Leading([p] + a) == Leading([q] + b)
  {
    assert ([p] + a)[1..] == a && ([q] + b)[1..] == b;
  }

  lemma {:induction false} LeftSpace(s: string)
    ensures Leading(Split(Lstrip(s), '.')) == Leading(Split(s, '.'))
  {
    hide Leading, OnlyDigits;
    if s != "" && IsSpace(s[0]) {
      LeftSpace(s[1..]);
      var rest := Split(s[1..], '.');
      NothingKept([s[0]]);
      DigitsConcat([s[0]], rest[0]);
      LeadingHead([s[0]] + rest[0], rest[0], rest[1..], rest[1..]);
      assert rest == [rest[0]] + rest[1..];
    }
  }

  lemma {:induction false} RightSpace(s: string, space: string)
    requires Blank(space)
    ensures Leading(Split(s, '.')) == Leading(Split(s + space, '.'))
    decreases |s|
  {
    hide Leading, OnlyDigits, Split;
    var n := FirstOf(s, '.');
    var t := s + space;
    SplitPieces(s, '.', n);
    if n < |s| {
      assert t[..n] == s[..n] && t[n + 1..] == s[n + 1..] + space;
      SplitPieces(t, '.', n);
      RightSpace(s[n + 1..], space);
      LeadingHead(s[..n], s[..n], Split(s[n + 1..], '.'), Split(t[n + 1..], '.'));
    } else {
      assert s[..n] == s && t[..|t|] == t;
      SplitPieces(t, '.', |t|);
      NothingKept(space);
      DigitsConcat(s, space);
      LeadingHead(s, t, [], []);
      assert [s] + [] == [s] && [t] + [] == [t];
    }
  }

  lemma {:induction false} StripLeading(s: string)
    ensures Leading(Split(Strip(s), '.')) == Leading(Split(s, '.'))
  {
    var r := Rstrip(s);
    assert s == r + s[|r|..];
    RightSpace(r, s[|r|..]);
    LeftSpace(r);
  }

  /** The implementations agree about a version exactly if its text is a dotted number up to digits that do not
      count. */
  lemma {:induction false} AgreeOnText(version: string)
    ensures ReadersAgree(version) <==> CleanVersion(version)
  {
    hide Split, Strip, NoDigit, CleanPieces, Same, DottedPrefix, ReadersAgree;
    AgreeExactly(version);
    StripLeading(version);
    ReadingsAlike(Strip(version));
    NothingKept(Split(Strip(version), '.')[0]);
  }
}
