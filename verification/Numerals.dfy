/** Positional numerals of the derived ID payloads (src/metaproc/ids.py): padded base-36 numbers, the base-32
    text of a digest (section 6 of RFC 4648, lower-cased), and decimal ordinals. */
module Numerals {

  datatype Alphabet = Base10 | Base32 | Base36 {

    function Size(): (n: nat)
      ensures 2 <= n <= 36
    {
      match this case Base10 => 10 case Base32 => 32 case Base36 => 36
    }

    /** The character of a digit. */
    function Char(d: nat): (c: char)
      requires d < Size()
      ensures Has(c) && Rank(c) == d
    {
      match this
      case Base10 => '0' + d as char
      case Base32 => if d < 26 then 'a' + d as char else '2' + (d - 26) as char
      case Base36 => if d < 10 then '0' + d as char else 'a' + (d - 10) as char
    }

    predicate Has(c: char) {
      match this
      case Base10 => '0' <= c <= '9'
      case Base32 => 'a' <= c <= 'z' || '2' <= c <= '7'
      case Base36 => '0' <= c <= '9' || 'a' <= c <= 'z'
    }

    function Rank(c: char): (d: nat)
      requires Has(c)
      ensures d < Size()
    {
      match this
      case Base10 => (c - '0') as nat
      case Base32 => if c >= 'a' then (c - 'a') as nat else (c - '2') as nat + 26
      case Base36 => if c >= 'a' then (c - 'a') as nat + 10 else (c - '0') as nat
    }

    predicate Spells(s: string) {
      forall i | 0 <= i < |s| :: Has(s[i])
    }
  }

  lemma {:induction false} CharRank(a: Alphabet, c: char)
    requires a.Has(c)
    ensures a.Char(a.Rank(c)) == c
  {
  }

  function Pow(b: nat, n: nat): (p: nat)
    ensures b > 0 ==> p > 0
  {
    if n == 0 then 1 else b * Pow(b, n - 1)
  }

  /** The number a text stands for. */
  function Value(a: Alphabet, s: string): nat
    requires a.Spells(s)
  {
    if s == "" then 0 else Value(a, s[..|s| - 1]) * a.Size() + a.Rank(s[|s| - 1])
  }

  /** The shortest numeral of a number. */
  function Spell(a: Alphabet, v: nat): string {
    if v < a.Size() then [a.Char(v)] else Spell(a, v / a.Size()) + [a.Char(v % a.Size())]
  }

  /** `str.rjust`. */
  function Justify(s: string, width: nat, pad: char): string
    decreases width - |s|
  {
    if |s| >= width then s else Justify([pad] + s, width, pad)
  }

  function Encode(a: Alphabet, v: nat, length: nat): string {
    Justify(Spell(a, v), length, a.Char(0))
  }

  function Reversed(s: string): string {
    if s == "" then "" else Reversed(s[1..]) + [s[0]]
  }

  /** `_encode_base36`. */
  method EncodeBase36(value: nat, length: nat) returns (r: string)
    ensures Base36.Spells(r) && Value(Base36, r) == value
    ensures |r| >= length && (length > 0 ==> (|r| == length <==> value < Pow(36, length)))
    ensures r == Encode(Base36, value, length)
  {
    var left := value;
    var encoded: string := "";
    while left != 0
      invariant left != 0 ==> Spell(Base36, value) == Spell(Base36, left) + Reversed(encoded)
      invariant left == 0 ==> Spell(Base36, value) == if encoded == "" then "0" else Reversed(encoded)
    {
      var digit := Base36.Char(left % 36);
      assert Reversed(encoded + [digit]) == [digit] + Reversed(encoded) by { ReversedSnoc(encoded, digit); }
      left, encoded := left / 36, encoded + [digit];
    }
    r := Justify(if encoded == "" then "0" else Reversed(encoded), length, '0');
    EncodeValue(Base36, value, length);
    EncodeWidth(Base36, value, length);
  }

  lemma {:induction false} ReversedSnoc(s: string, c: char)
    ensures Reversed(s + [c]) == [c] + Reversed(s)
  {
    if s != "" {
      assert (s + [c])[1..] == s[1..] + [c];
      ReversedSnoc(s[1..], c);
    } else {
      assert Reversed([c]) == [c];
    }
  }

  lemma {:induction false} SpellValue(a: Alphabet, v: nat)
    ensures a.Spells(Spell(a, v)) && Value(a, Spell(a, v)) == v
  {
    if v < a.Size() {
      assert Spell(a, v)[..0] == "";
    } else {
      SpellValue(a, v / a.Size());
      ValueSnoc(a, Spell(a, v / a.Size()), a.Char(v % a.Size()));
    }
  }

  lemma {:induction false} ValueSnoc(a: Alphabet, s: string, c: char)
    requires a.Spells(s) && a.Has(c)
    ensures a.Spells(s + [c]) && Value(a, s + [c]) == Value(a, s) * a.Size() + a.Rank(c)
  {
    assert (s + [c])[..|s|] == s;
  }

  /** Leading zeros do not change the number. */
  lemma {:induction false} ValuePad(a: Alphabet, s: string)
    requires a.Spells(s)
    ensures a.Spells([a.Char(0)] + s) && Value(a, [a.Char(0)] + s) == Value(a, s)
  {
    if s == "" {
      ValueSnoc(a, "", a.Char(0));
    } else {
      var t, c := s[..|s| - 1], s[|s| - 1];
      ValuePad(a, t);
      assert [a.Char(0)] + s == ([a.Char(0)] + t) + [c];
      ValueSnoc(a, [a.Char(0)] + t, c);
    }
  }

  lemma {:induction false} JustifyValue(a: Alphabet, s: string, width: nat)
    requires a.Spells(s)
    ensures var r := Justify(s, width, a.Char(0));
      && a.Spells(r) && Value(a, r) == Value(a, s) && |r| == if |s| >= width then |s| else width
    decreases width - |s|
  {
    if |s| < width {
      ValuePad(a, s);
      JustifyValue(a, [a.Char(0)] + s, width);
    }
  }

  /** Decoding an encoded number gives the number. */
  lemma {:induction false} EncodeValue(a: Alphabet, v: nat, length: nat)
    ensures a.Spells(Encode(a, v, length)) && Value(a, Encode(a, v, length)) == v
  {
    SpellValue(a, v);
    JustifyValue(a, Spell(a, v), length);
  }

  lemma {:induction false} ValueBound(a: Alphabet, s: string)
    requires a.Spells(s)
    ensures Value(a, s) < Pow(a.Size(), |s|)
  {
    if s != "" {
      var t := s[..|s| - 1];
      ValueBound(a, t);
      assert Pow(a.Size(), |s|) == a.Size() * Pow(a.Size(), |t|);
      assert Value(a, t) + 1 <= Pow(a.Size(), |t|);
      Scaled(a.Size(), Value(a, t) + 1, Pow(a.Size(), |t|));
    }
  }

  lemma {:induction false} Scaled(k: nat, x: nat, y: nat)
    requires x <= y
    ensures k * x <= k * y
  {
  }

  lemma {:induction false} SpellWidth(a: Alphabet, v: nat, length: nat)
    requires 0 < length && v < Pow(a.Size(), length)
    ensures |Spell(a, v)| <= length
  {
    if v >= a.Size() {
      assert Pow(a.Size(), 1) == a.Size() * Pow(a.Size(), 0);
      assert v < a.Size() * Pow(a.Size(), length - 1);
      Quotient(a.Size(), v, Pow(a.Size(), length - 1));
      SpellWidth(a, v / a.Size(), length - 1);
    }
  }

  lemma {:induction false} Quotient(k: nat, v: nat, p: nat)
    requires 0 < k && v < k * p
    ensures v / k < p
  {
    assert k * (v / k) <= v;
    if p <= v / k { Scaled(k, p, v / k); }
  }

  /** The encoding is as wide as asked exactly for the numbers that fit. */
  lemma {:induction false} EncodeWidth(a: Alphabet, v: nat, length: nat)
    ensures |Encode(a, v, length)| >= length
    ensures length > 0 ==> (|Encode(a, v, length)| == length <==> v < Pow(a.Size(), length))
  {
    SpellValue(a, v);
    JustifyValue(a, Spell(a, v), length);
    ValueBound(a, Encode(a, v, length));
    if length > 0 && v < Pow(a.Size(), length) { SpellWidth(a, v, length); }
  }

  /** Two texts of one width that stand for one number are the same. */
  lemma {:induction false} ValueInjective(a: Alphabet, s: string, t: string)
    requires a.Spells(s) && a.Spells(t) && |s| == |t| && Value(a, s) == Value(a, t)
    ensures s == t
  {
    if s != "" {
      var n := |s| - 1;
      Divided(a.Size(), Value(a, s[..n]), a.Rank(s[n]), Value(a, t[..n]), a.Rank(t[n]));
      CharRank(a, s[n]);
      CharRank(a, t[n]);
      ValueInjective(a, s[..n], t[..n]);
      assert s == s[..n] + [s[n]] && t == t[..n] + [t[n]];
    }
  }

  lemma {:induction false} Divided(k: nat, q: nat, r: nat, q': nat, r': nat)
    requires r < k && r' < k && q * k + r == q' * k + r'
    ensures q == q' && r == r'
  {
    if q < q' {
      Scaled(k, q + 1, q');
    } else if q' < q {
      Scaled(k, q' + 1, q);
    }
  }

  /** The texts of one width and the numbers that fit it correspond one to one. */
  lemma {:induction false} Bijection(a: Alphabet, length: nat)
    requires length > 0
    ensures forall s: string | a.Spells(s) && |s| == length ::
      Value(a, s) < Pow(a.Size(), length) && Encode(a, Value(a, s), length) == s
    ensures forall v: nat | v < Pow(a.Size(), length) ::
      var s := Encode(a, v, length); a.Spells(s) && |s| == length && Value(a, s) == v
  {
    forall s: string | a.Spells(s) && |s| == length
      ensures Value(a, s) < Pow(a.Size(), length) && Encode(a, Value(a, s), length) == s
    {
      ValueBound(a, s);
      EncodeValue(a, Value(a, s), length);
      EncodeWidth(a, Value(a, s), length);
      ValueInjective(a, Encode(a, Value(a, s), length), s);
    }
    forall v: nat | v < Pow(a.Size(), length)
      ensures var s := Encode(a, v, length); a.Spells(s) && |s| == length && Value(a, s) == v
    {
      EncodeValue(a, v, length);
      EncodeWidth(a, v, length);
    }
  }

  /** Decimal ordinals differ for different numbers. */
  lemma {:induction false} SpellInjective(a: Alphabet, v: nat, w: nat)
    requires Spell(a, v) == Spell(a, w)
    ensures v == w
  {
    SpellValue(a, v);
    SpellValue(a, w);
  }
}
