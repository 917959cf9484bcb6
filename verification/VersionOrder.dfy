/** Two comparisons of release numbers that pad with zeros (devtools/check_supply_chain.py `_version_key` and
    `_satisfies`; src/metaproc/adapters/gemini_cli.py `_version_tuple` and `_below_minimum`), over ASCII text. */
module VersionOrder {
  import opened Numerals
  import opened PyText

  type Release = seq<nat>

  // ----- the order

  function Pad(r: Release, width: nat): Release
    decreases width - |r|
  {
    if |r| >= width then r else Pad(r + [0], width)
  }

  /** How two tuples of one length compare: negative, zero or positive. */
  function Lex(a: Release, b: Release): int
    requires |a| == |b|
  {
    if a == [] then 0
    else if a[0] != b[0] then (if a[0] < b[0] then -1 else 1)
    else Lex(a[1..], b[1..])
  }

  function Max(m: nat, n: nat): nat { if m < n then n else m }

  function Compare(a: Release, b: Release): int {
    var width := Max(|a|, |b|);
    PadAt(a, width);
    PadAt(b, width);
    Lex(Pad(a, width), Pad(b, width))
  }

  /** A component; past its end a release is zero. */
  function At(r: Release, i: nat): nat {
    if i < |r| then r[i] else 0
  }

  lemma {:induction false} PadAt(r: Release, width: nat)
    ensures |Pad(r, width)| == Max(|r|, width) && forall i: nat :: At(Pad(r, width), i) == At(r, i)
    decreases width - |r|
  {
    if |r| < width {
      PadAt(r + [0], width);
      assert forall i: nat :: At(r + [0], i) == At(r, i);
    }
  }

  ghost predicate SameBelow(a: Release, b: Release, k: nat) {
    forall i: nat | i < k :: At(a, i) == At(b, i)
  }

  /** The first difference is at `k`, and `a` has the smaller component there. */
  ghost predicate LessAt(a: Release, b: Release, k: nat) {
    SameBelow(a, b, k) && At(a, k) < At(b, k)
  }

  ghost predicate Less(a: Release, b: Release) {
    exists k: nat :: LessAt(a, b, k)
  }

  /** The same release up to trailing zeros. */
  ghost predicate Same(a: Release, b: Release) {
    forall i: nat :: At(a, i) == At(b, i)
  }

  lemma {:induction false} LexAt(a: Release, b: Release)
    requires |a| == |b|
    ensures Lex(a, b) < 0 <==> Less(a, b)
    ensures Lex(a, b) > 0 <==> Less(b, a)
    ensures Lex(a, b) == 0 <==> Same(a, b)
  {
    if a == [] {
    } else if a[0] != b[0] {
      assert At(a, 0) != At(b, 0);
      if a[0] < b[0] { assert LessAt(a, b, 0); } else { assert LessAt(b, a, 0); }
    } else {
      LexAt(a[1..], b[1..]);
      LessTail(a, b);
      LessTail(b, a);
      assert forall i: nat | i > 0 :: At(a, i) == At(a[1..], i - 1) && At(b, i) == At(b[1..], i - 1);
      assert forall i: nat :: At(a[1..], i) == At(a, i + 1) && At(b[1..], i) == At(b, i + 1);
      assert At(a, 0) == At(b, 0);
    }
  }

  lemma {:induction false} LessTail(a: Release, b: Release)
    requires |a| == |b| > 0 && a[0] == b[0]
    ensures Less(a, b) <==> Less(a[1..], b[1..])
  {
    assert forall i: nat :: At(a[1..], i) == At(a, i + 1) && At(b[1..], i) == At(b, i + 1);
    if Less(a, b) {
      var k: nat :| LessAt(a, b, k);
      assert LessAt(a[1..], b[1..], k - 1);
    }
    if Less(a[1..], b[1..]) {
      var k: nat :| LessAt(a[1..], b[1..], k);
      assert forall i: nat | 0 < i <= k :: At(a, i) == At(a[1..], i - 1) && At(b, i) == At(b[1..], i - 1);
      assert At(a, k + 1) == At(a[1..], k) && At(b, k + 1) == At(b[1..], k);
      assert LessAt(a, b, k + 1);
    }
  }

  /** Padding to any common width compares the releases as endless sequences that end in zeros. */
  lemma {:induction false} CompareExact(a: Release, b: Release, width: nat)
    requires width >= |a| && width >= |b|
    ensures |Pad(a, width)| == |Pad(b, width)| == width && Lex(Pad(a, width), Pad(b, width)) == Compare(a, b)
    ensures Compare(a, b) < 0 <==> Less(a, b)
    ensures Compare(a, b) > 0 <==> Less(b, a)
    ensures Compare(a, b) == 0 <==> Same(a, b)
  {
    PaddedExact(a, b, width);
    PaddedExact(a, b, Max(|a|, |b|));
    LexSign(Pad(a, width), Pad(b, width));
    LexSign(Pad(a, Max(|a|, |b|)), Pad(b, Max(|a|, |b|)));
  }

  lemma {:induction false} PaddedExact(a: Release, b: Release, width: nat)
    requires width >= |a| && width >= |b|
    ensures |Pad(a, width)| == |Pad(b, width)| == width
    ensures var c := Lex(Pad(a, width), Pad(b, width));
      (c < 0 <==> Less(a, b)) && (c > 0 <==> Less(b, a)) && (c == 0 <==> Same(a, b))
  {
    var p, q := Pad(a, width), Pad(b, width);
    PadAt(a, width);
    PadAt(b, width);
    LexAt(p, q);
    LessSame(a, p, b, q);
    LessSame(b, q, a, p);
  }

  lemma {:induction false} LessSame(a: Release, a': Release, b: Release, b': Release)
    requires Same(a, a') && Same(b, b')
    ensures Less(a, b) <==> Less(a', b')
  {
    if Less(a, b) {
      var k: nat :| LessAt(a, b, k);
      assert LessAt(a', b', k);
    }
    if Less(a', b') {
      var k: nat :| LessAt(a', b', k);
      assert LessAt(a, b, k);
    }
  }

  lemma {:induction false} LexSign(a: Release, b: Release)
    requires |a| == |b|
    ensures -1 <= Lex(a, b) <= 1
  {
    if a != [] && a[0] == b[0] {
      LexSign(a[1..], b[1..]);
    }
  }

  /** A total preorder whose classes are the releases that agree up to trailing zeros. */
  lemma {:induction false} TotalPreorder(a: Release, b: Release, c: Release)
    ensures Compare(a, b) == -Compare(b, a)
    ensures Compare(a, b) == 0 <==> Same(a, b)
    ensures Compare(a, b) <= 0 && Compare(b, c) <= 0 ==> Compare(a, c) <= 0
    ensures Compare(a, b + [0]) == Compare(a, b)
  {
    CompareExact(a, b, Max(|a|, |b|));
    CompareExact(b, a, Max(|a|, |b|));
    CompareExact(b, c, Max(|b|, |c|));
    CompareExact(a, c, Max(|a|, |c|));
    CompareExact(a, b + [0], Max(|a|, |b| + 1));
    LexSigns(a, b);
    LexSigns(b, a);
    LexSigns(a, b + [0]);
    assert Same(b, b + [0]);
    LessSame(a, a, b, b + [0]);
    LessSame(b, b + [0], a, a);
    if Compare(a, b) <= 0 && Compare(b, c) <= 0 && Less(c, a) {
      LessThen(b, c, a);
    }
  }

  lemma {:induction false} LexSigns(a: Release, b: Release)
    ensures -1 <= Compare(a, b) <= 1
  {
    var width := Max(|a|, |b|);
    CompareExact(a, b, width);
    LexSign(Pad(a, width), Pad(b, width));
  }

  lemma {:induction false} LessThen(b: Release, c: Release, a: Release)
    requires (Less(b, c) || Same(b, c)) && Less(c, a)
    ensures Less(b, a)
  {
    var j: nat :| LessAt(c, a, j);
    if Same(b, c) {
      assert LessAt(b, a, j);
    } else {
      var k: nat :| LessAt(b, c, k);
      assert LessAt(b, a, if j < k then j else k);
    }
  }

  // ----- reading a version

  predicate IsNumber(s: string) {
    s != "" && Base10.Spells(s)
  }

  function OnlyDigits(s: string): (r: string)
    ensures Base10.Spells(r)
  {
    if s == "" then "" else (if Base10.Has(s[0]) then [s[0]] else "") + OnlyDigits(s[1..])
  }

  /** The numbers of the pieces before the first piece without a digit. */
  function Leading(pieces: seq<string>): Release {
    if pieces == [] || OnlyDigits(pieces[0]) == "" then []
    else [Value(Base10, OnlyDigits(pieces[0]))] + Leading(pieces[1..])
  }

  /** `_version_tuple`. */
  method VersionTuple(version: string) returns (parts: Release)
    ensures parts == Leading(Split(version, '.'))
  {
    var pieces := Split(version, '.');
    parts := [];
    for k := 0 to |pieces|
      invariant parts + Leading(pieces[k..]) == Leading(pieces)
    {
      var digits := OnlyDigits(pieces[k]);
      assert pieces[k..][0] == pieces[k] && pieces[k..][1..] == pieces[k + 1..];
      if digits == "" { break; }
      parts := parts + [Value(Base10, digits)];
    }
  }

  function DigitRun(s: string): (n: nat)
    ensures n <= |s| && Base10.Spells(s[..n]) && (n < |s| ==> !Base10.Has(s[n]))
  {
    if s == "" || !Base10.Has(s[0]) then 0
    else
      var n := DigitRun(s[1..]) + 1;
      assert s[..n] == [s[0]] + s[1..][..n - 1];
      n
  }

  /** The numbers of the longest prefix that is a dotted number. */
  function DottedPrefix(s: string): Release
    decreases |s|
  {
    var n := DigitRun(s);
    if n == 0 then []
    else [Value(Base10, s[..n])] + if n < |s| && s[n] == '.' then DottedPrefix(s[n + 1..]) else []
  }

  /** `_version_key`. */
  function VersionKey(version: string): Release {
    DottedPrefix(Strip(version))
  }

  /** `_below_minimum`. */
  function BelowMinimum(found: string, minimum: string): bool {
    var parts := Leading(Split(found, '.'));
    parts != [] && Compare(parts, Leading(Split(minimum, '.'))) < 0
  }

  // ----- specifiers

  datatype Operator = AtLeast | AtMost | Equal | NotEqual | Above | Under

  datatype Clause = NoClause | Clause(op: Operator, want: Release)

  function Wanting(op: Operator, text: string): Clause {
    if Lstrip(text) == "" then NoClause else Clause(op, VersionKey(Lstrip(text)))
  }

  /** The operator and the version of a stripped clause.  A bare `>=` or `<=` is read as `>` or `<` and the
      unreadable version `=`. */
  function ParseClause(s: string): Clause {
    if ">=" <= s && Lstrip(s[2..]) != "" then Wanting(AtLeast, s[2..])
    else if "<=" <= s && Lstrip(s[2..]) != "" then Wanting(AtMost, s[2..])
    else if "==" <= s then Wanting(Equal, s[2..])
    else if "!=" <= s then Wanting(NotEqual, s[2..])
    else if ">" <= s then Wanting(Above, s[1..])
    else if "<" <= s then Wanting(Under, s[1..])
    else NoClause
  }

  predicate Holds(op: Operator, c: int) {
    match op
    case AtLeast => c >= 0
    case AtMost => c <= 0
    case Equal => c == 0
    case NotEqual => c != 0
    case Above => c > 0
    case Under => c < 0
  }

  /** An empty clause says nothing; an unreadable one cannot be met. */
  predicate Meets(got: Release, clause: string) {
    var s := Strip(clause);
    s == "" || match ParseClause(s) case NoClause => false case Clause(op, want) => Holds(op, Compare(got, want))
  }

  ghost predicate MeetsAll(got: Release, clauses: seq<string>) {
    forall k | 0 <= k < |clauses| :: Meets(got, clauses[k])
  }

  /** `_satisfies`. */
  method Satisfies(version: string, specifier: string) returns (r: bool)
    ensures r <==> MeetsAll(VersionKey(version), Split(specifier, ','))
  {
    hide VersionKey, Split, Strip, ParseClause, Compare;
    var got, clauses := VersionKey(version), Split(specifier, ',');
    for k := 0 to |clauses|
      invariant MeetsAll(got, clauses[..k])
    {
      var s := Strip(clauses[k]);
      if s != "" {
        var clause := ParseClause(s);
        if clause.NoClause? || !Holds(clause.op, Compare(got, clause.want)) {
          assert !Meets(got, clauses[k]);
          return false;
        }
      }
    }
    assert clauses[..|clauses|] == clauses;
    r := true;
  }

  // ----- the two readings of a dotted number

  /** A dotted numeric version. */
  ghost predicate Dotted(s: string) {
    forall k | 0 <= k < |Split(s, '.')| :: IsNumber(Split(s, '.')[k])
  }

  lemma {:induction false} DigitsKept(s: string)
    requires Base10.Spells(s)
    ensures OnlyDigits(s) == s
  {
    if s != "" {
      assert Base10.Spells(s[1..]);
      DigitsKept(s[1..]);
    }
  }

  /** Both functions read a dotted number the same way. */
  lemma {:induction false} SameReading(s: string)
    requires Dotted(s)
    ensures DottedPrefix(s) == Leading(Split(s, '.')) && DottedPrefix(s) != []
    decreases |s|
  {
    var n := FirstOf(s, '.');
    SplitPieces(s, '.', n);
    var piece := s[..n];
    assert piece == Split(s, '.')[0] && IsNumber(piece) by { if n == |s| { assert piece == s; } }
    DigitsKept(piece);
    RunLength(s, n);
    if n < |s| {
      var rest := Split(s[n + 1..], '.');
      assert forall k | 0 <= k < |rest| :: rest[k] == Split(s, '.')[k + 1];
      assert Split(s, '.')[1..] == rest;
      SameReading(s[n + 1..]);
    }
  }

  lemma {:induction false} RunLength(s: string, n: nat)
    requires n <= |s| && Base10.Spells(s[..n]) && (n < |s| ==> !Base10.Has(s[n]))
    ensures DigitRun(s) == n
  {
    var m := DigitRun(s);
    assert forall i | 0 <= i < n :: s[i] == s[..n][i] && Base10.Has(s[i]);
    assert forall i | 0 <= i < m :: s[i] == s[..m][i] && Base10.Has(s[i]);
  }

  lemma {:induction false} DottedChars(s: string)
    requires Dotted(s)
    ensures s != "" && forall i | 0 <= i < |s| :: Base10.Has(s[i]) || s[i] == '.'
    decreases |s|
  {
    var n := FirstOf(s, '.');
    SplitPieces(s, '.', n);
    assert IsNumber(Split(s, '.')[0]);
    forall i | 0 <= i < |s|
      ensures Base10.Has(s[i]) || s[i] == '.'
    {
      if n < |s| {
        var rest := Split(s[n + 1..], '.');
        assert forall k | 0 <= k < |rest| :: rest[k] == Split(s, '.')[k + 1];
        DottedChars(s[n + 1..]);
        if i < n { assert s[i] == s[..n][i]; } else if i > n { assert s[i] == s[n + 1..][i - n - 1]; }
      }
    }
  }

  lemma {:induction false} NoSpaces(s: string)
    requires s != "" && !IsSpace(s[0]) && !IsSpace(s[|s| - 1])
    ensures Strip(s) == s && Lstrip(s) == s
  {
  }

  /** A specifier of one `>=` clause. */
  lemma {:induction false} OneClause(got: Release, minimum: string)
    requires minimum != "" && ',' !in minimum && !IsSpace(minimum[0]) && !IsSpace(minimum[|minimum| - 1])
    ensures MeetsAll(got, Split(">=" + minimum, ',')) <==> Compare(got, VersionKey(minimum)) >= 0
  {
    hide Split, Compare, VersionKey, ParseClause, Strip;
    var s := ">=" + minimum;
    assert forall i | 2 <= i < |s| :: s[i] == minimum[i - 2];
    ClauseParsed(minimum);
    OneMet(got, s);
  }

  lemma {:induction false} OneMet(got: Release, s: string)
    requires s != "" && ',' !in s && !IsSpace(s[0]) && !IsSpace(s[|s| - 1])
    ensures Strip(s) == s && (MeetsAll(got, Split(s, ',')) <==> Meets(got, s))
  {
    NoSpaces(s);
    assert s[..|s|] == s;
    SplitPieces(s, ',', |s|);
    assert [s][0] == s;
  }

  lemma {:induction false} ClauseParsed(minimum: string)
    requires minimum != "" && !IsSpace(minimum[0])
    ensures ParseClause(">=" + minimum) == Clause(AtLeast, VersionKey(minimum))
  {
    hide VersionKey;
    assert (">=" + minimum)[2..] == minimum;
  }

  /** For dotted numeric versions `>=` of the one implementation is the negation of "below" of the other. */
  lemma {:induction false} AtLeastExactly(version: string, minimum: string)
    requires Dotted(version) && Dotted(minimum)
    ensures MeetsAll(VersionKey(version), Split(">=" + minimum, ',')) <==> !BelowMinimum(version, minimum)
  {
    hide Split, Compare, DottedPrefix, Strip, MeetsAll, Dotted, Leading;
    DottedChars(version);
    DottedChars(minimum);
    NoSpaces(version);
    NoSpaces(minimum);
    SameReading(version);
    SameReading(minimum);
    OneClause(VersionKey(version), minimum);
  }

  /** Two versions that agree up to trailing zeros meet the same specifiers. */
  lemma {:induction false} SameReleaseSameAnswer(a: Release, b: Release, clauses: seq<string>)
    requires Same(a, b)
    ensures MeetsAll(a, clauses) <==> MeetsAll(b, clauses)
  {
    forall k | 0 <= k < |clauses|
      ensures Meets(a, clauses[k]) <==> Meets(b, clauses[k])
    {
      var s := Strip(clauses[k]);
      if s != "" && ParseClause(s).Clause? {
        var want := ParseClause(s).want;
        CompareExact(a, want, Max(|a|, |want|));
        CompareExact(b, want, Max(|b|, |want|));
        LessSame(a, b, want, want);
        LessSame(want, want, a, b);
      }
    }
  }

  /** Clauses are a conjunction, wherever the comma stands. */
  lemma {:induction false} Conjunction(version: string, left: string, right: string)
    ensures MeetsAll(VersionKey(version), Split(left + "," + right, ',')) <==>
      MeetsAll(VersionKey(version), Split(left, ',')) && MeetsAll(VersionKey(version), Split(right, ','))
  {
    SplitJoin(left, right, ',');
    var a, b := Split(left, ','), Split(right, ',');
    assert forall k | 0 <= k < |a| :: (a + b)[k] == a[k];
    assert forall k | 0 <= k < |b| :: (a + b)[|a| + k] == b[k];
    var got := VersionKey(version);
    if MeetsAll(got, a + b) {
      forall k | 0 <= k < |b| ensures Meets(got, b[k]) { assert Meets(got, (a + b)[|a| + k]); }
    }
  }
}
