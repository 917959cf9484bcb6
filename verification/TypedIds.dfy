/** The grammar of typed IDs (src/metaproc/ids.py): `prefix`, one delimiter, `payload`, and the two timestamped
    payload shapes. */
module TypedIds {
  import opened Common
  import opened Numerals

  datatype TypedId = TypedId(prefix: string, delimiter: char, payload: string)

  function Render(id: TypedId): string {
    id.prefix + [id.delimiter] + id.payload
  }

  predicate IsDelimiter(c: char) {
    c == '-' || c == '_'
  }

  /** `_PREFIX_PATTERN`. */
  predicate IsPrefix(s: string) {
    1 <= |s| <= 8 && 'a' <= s[0] <= 'z' && Base36.Spells(s)
  }

  predicate IsAlphanumeric(c: char) {
    Base36.Has(c) || 'A' <= c <= 'Z'
  }

  /** `_PAYLOAD_PATTERN`. */
  predicate IsPayload(s: string) {
    s != "" && IsAlphanumeric(s[0])
    && forall i | 0 <= i < |s| :: IsAlphanumeric(s[i]) || s[i] == '.' || s[i] == '_' || s[i] == '-'
  }

  predicate WellFormed(id: TypedId) {
    IsPrefix(id.prefix) && IsDelimiter(id.delimiter) && IsPayload(id.payload)
  }

  function FirstDelimiter(s: string): (n: nat)
    ensures n <= |s| && (n < |s| ==> IsDelimiter(s[n])) && forall i | 0 <= i < n :: !IsDelimiter(s[i])
  {
    if s == "" || IsDelimiter(s[0]) then 0 else FirstDelimiter(s[1..]) + 1
  }

  /** `parse_typed_id` and `typed_id_delimiter`. */
  function Parse(value: string): Option<TypedId> {
    var n := FirstDelimiter(value);
    if n == |value| then None
    else
      var id := TypedId(value[..n], value[n], value[n + 1..]);
      if WellFormed(id) then Some(id) else None
  }

  /** An ID splits in one way only: a text parses to the parts it is rendered from, and only to them. */
  lemma {:induction false} ParseExact(value: string, id: TypedId)
    ensures Parse(value) == Some(id) <==> WellFormed(id) && value == Render(id)
  {
    var n := FirstDelimiter(value);
    if n < |value| { assert value == value[..n] + [value[n]] + value[n + 1..]; }
    if WellFormed(id) && value == Render(id) {
      var m := |id.prefix|;
      assert value[m] == id.delimiter;
      assert forall i | 0 <= i < m :: value[i] == id.prefix[i] && !IsDelimiter(value[i]);
      assert n == m;
      assert value[..n] == id.prefix && value[n + 1..] == id.payload;
    }
  }

  ghost predicate SmallOrDigit(c: char) {
    'a' <= c <= 'z' || '0' <= c <= '9'
  }

  ghost predicate Digits(s: string, n: nat) {
    |s| == n && forall i | 0 <= i < n :: '0' <= s[i] <= '9'
  }

  ghost predicate IsWord(s: string, h: char, t: string) {
    s == [h] + t
  }

  /** The three patterns, as concatenations of their pieces. */
  lemma {:induction false} PrefixExact(s: string)
    ensures IsPrefix(s) <==>
      exists h, t :: IsWord(s, h, t) && 'a' <= h <= 'z' && |t| <= 7 && forall i | 0 <= i < |t| :: SmallOrDigit(t[i])
  {
    if s != "" { assert IsWord(s, s[0], s[1..]); }
    if h, t :| IsWord(s, h, t) && 'a' <= h <= 'z' && |t| <= 7 && forall i | 0 <= i < |t| :: SmallOrDigit(t[i]) {
      assert forall i | 0 < i < |s| :: s[i] == t[i - 1];
    }
  }

  ghost predicate PayloadChar(c: char) {
    SmallOrDigit(c) || 'A' <= c <= 'Z' || c in ['.', '_', '-']
  }

  ghost predicate PayloadWord(h: char, t: string) {
    PayloadChar(h) && h !in ['.', '_', '-'] && forall i | 0 <= i < |t| :: PayloadChar(t[i])
  }

  lemma {:induction false} PayloadExact(s: string)
    ensures IsPayload(s) <==>
      exists h, t :: IsWord(s, h, t) && PayloadWord(h, t)
  {
    if s != "" { assert IsWord(s, s[0], s[1..]); }
    if h, t :| IsWord(s, h, t) && PayloadWord(h, t) {
      assert forall i | 0 < i < |s| :: s[i] == t[i - 1];
    }
  }

  ghost predicate IsMoment(s: string, day: string, time: string) {
    s == day + "T" + time + "Z" && Digits(day, 8) && Digits(time, 6)
  }

  lemma {:induction false} InstantExact(s: string)
    ensures IsInstant(s) <==> exists day, time :: IsMoment(s, day, time)
  {
    if IsInstant(s) {
      assert s == s[..8] + "T" + s[9..15] + "Z";
      assert IsMoment(s, s[..8], s[9..15]);
    }
    if day, time :| IsMoment(s, day, time) {
      assert s[..8] == day && s[9..15] == time;
    }
  }

  // ----- timestamped payloads

  datatype Parts = Parts(timestamp: string, random: string)

  /** `\d{8}T\d{6}Z`. */
  predicate IsInstant(s: string) {
    |s| == 16 && Base10.Spells(s[..8]) && s[8] == 'T' && Base10.Spells(s[9..15]) && s[15] == 'Z'
  }

  predicate IsRandom(s: string, least: nat, most: nat) {
    least <= |s| <= most && Base36.Spells(s)
  }

  /** An instant, a fraction of digits and a random part, around two separators: what the patterns of the compact
      (`.`) and the historical (`-`) payload match. */
  ghost predicate Matches(payload: string, separator: char, least: nat, most: nat, instant: string, fraction: string,
                          random: string) {
    && payload == instant + [separator] + fraction + [separator] + random
    && IsInstant(instant) && fraction != "" && Base10.Spells(fraction) && IsRandom(random, least, most)
  }

  /** Where the last separator is: the length of the first part of `rpartition`. */
  function LastIndex(s: string, c: char): (k: int)
    ensures -1 <= k < |s| && (k >= 0 ==> s[k] == c)
  {
    if s == "" then -1 else if s[|s| - 1] == c then |s| - 1 else LastIndex(s[..|s| - 1], c)
  }

  predicate Shaped(payload: string, separator: char, least: nat, most: nat) {
    var k := LastIndex(payload, separator);
    k > 17 && IsInstant(payload[..16]) && payload[16] == separator && Base10.Spells(payload[17..k])
    && IsRandom(payload[k + 1..], least, most)
  }

  lemma {:induction false} ShapedExact(payload: string, separator: char, least: nat, most: nat)
    requires separator == '.' || separator == '-'
    ensures Shaped(payload, separator, least, most) ==>
              var k := LastIndex(payload, separator);
              Matches(payload, separator, least, most, payload[..16], payload[17..k], payload[k + 1..])
    ensures forall instant, fraction, random | Matches(payload, separator, least, most, instant, fraction, random) ::
              && Shaped(payload, separator, least, most)
              && LastIndex(payload, separator) == 17 + |fraction|
              && instant == payload[..16] && fraction == payload[17..17 + |fraction|]
              && random == payload[18 + |fraction|..]
  {
    var k := LastIndex(payload, separator);
    if k > 17 && payload[16] == separator {
      assert payload == payload[..16] + [separator] + payload[17..k] + [separator] + payload[k + 1..];
    }
    forall instant, fraction, random | Matches(payload, separator, least, most, instant, fraction, random)
      ensures Shaped(payload, separator, least, most)
      ensures LastIndex(payload, separator) == 17 + |fraction|
      ensures instant == payload[..16] && fraction == payload[17..17 + |fraction|]
      ensures random == payload[18 + |fraction|..]
    {
      MatchSplit(payload, separator, least, most, instant, fraction, random);
    }
  }

  lemma {:induction false} LastIndexAt(a: string, c: char, b: string)
    requires c !in b
    ensures LastIndex(a + [c] + b, c) == |a|
  {
    var s := a + [c] + b;
    if b == "" {
      assert s == a + [c];
    } else {
      assert s[|s| - 1] == b[|b| - 1] && s[..|s| - 1] == a + [c] + b[..|b| - 1];
      LastIndexAt(a, c, b[..|b| - 1]);
    }
  }

  lemma {:induction false} MatchSplit(payload: string, separator: char, least: nat, most: nat, instant: string,
                                      fraction: string, random: string)
    requires separator == '.' || separator == '-'
    requires Matches(payload, separator, least, most, instant, fraction, random)
    ensures Shaped(payload, separator, least, most)
    ensures LastIndex(payload, separator) == 17 + |fraction|
    ensures instant == payload[..16] && fraction == payload[17..17 + |fraction|]
    ensures random == payload[18 + |fraction|..]
  {
    var head := instant + [separator] + fraction;
    assert payload == head + [separator] + random;
    LastIndexAt(head, separator, random);
    assert payload[..16] == instant && payload[17..17 + |fraction|] == fraction;
    assert payload[18 + |fraction|..] == random;
  }

  function Replace(s: string, from: char, to: char): (r: string)
    ensures |r| == |s| && forall i | 0 <= i < |s| :: r[i] == if s[i] == from then to else s[i]
  {
    if s == "" then "" else Replace(s[..|s| - 1], from, to) + [if s[|s| - 1] == from then to else s[|s| - 1]]
  }

  /** `_timestamped_payload_parts`: the timestamp half always has the compact separator. */
  function PartsOf(payload: string): Option<Parts> {
    if Shaped(payload, '.', 10, 50) then
      var k := LastIndex(payload, '.');
      Some(Parts(payload[..k], payload[k + 1..]))
    else if Shaped(payload, '-', 10, 10) then
      var k := LastIndex(payload, '-');
      Some(Parts(Replace(payload[..k], '-', '.'), payload[k + 1..]))
    else None
  }

  ghost predicate IsTimestamp(timestamp: string, instant: string, fraction: string) {
    IsInstant(instant) && fraction != "" && Base10.Spells(fraction) && timestamp == instant + "." + fraction
  }

  /** A payload has these parts exactly if it is their compact or their historical spelling. */
  lemma {:induction false} PartsExact(payload: string, parts: Parts)
    ensures PartsOf(payload) == Some(parts) <==>
      exists instant, fraction :: IsTimestamp(parts.timestamp, instant, fraction)
        && (Matches(payload, '.', 10, 50, instant, fraction, parts.random)
            || Matches(payload, '-', 10, 10, instant, fraction, parts.random))
  {
    hide Matches, LastIndex, PartsOf;
    if PartsOf(payload) == Some(parts) {
      PartsMatch(payload);
    }
    forall instant, fraction | IsTimestamp(parts.timestamp, instant, fraction)
      && (Matches(payload, '.', 10, 50, instant, fraction, parts.random)
          || Matches(payload, '-', 10, 10, instant, fraction, parts.random))
      ensures PartsOf(payload) == Some(parts)
    {
      MatchParts(payload, instant, fraction, parts.random);
    }
  }

  lemma {:induction false} PartsMatch(payload: string)
    requires PartsOf(payload).Some?
    ensures exists instant, fraction ::
      && IsTimestamp(PartsOf(payload).value.timestamp, instant, fraction)
      && (Matches(payload, '.', 10, 50, instant, fraction, PartsOf(payload).value.random)
          || Matches(payload, '-', 10, 10, instant, fraction, PartsOf(payload).value.random))
  {
    ShapedExact(payload, '.', 10, 50);
    ShapedExact(payload, '-', 10, 10);
    PartsSplit(payload);
    var k := LastIndex(payload, if Shaped(payload, '.', 10, 50) then '.' else '-');
    assert IsTimestamp(PartsOf(payload).value.timestamp, payload[..16], payload[17..k]);
  }

  lemma {:induction false} PartsSplit(payload: string)
    requires PartsOf(payload).Some?
    ensures var separator := if Shaped(payload, '.', 10, 50) then '.' else '-';
      var k := LastIndex(payload, separator);
      k > 17 && IsTimestamp(PartsOf(payload).value.timestamp, payload[..16], payload[17..k])
  {
    var separator := if Shaped(payload, '.', 10, 50) then '.' else '-';
    var k := LastIndex(payload, separator);
    assert payload[..k] == payload[..16] + [separator] + payload[17..k];
    Compact(payload[..16], payload[17..k], separator);
  }

  lemma {:induction false} Compact(instant: string, fraction: string, separator: char)
    requires IsInstant(instant) && Base10.Spells(fraction) && (separator == '.' || separator == '-')
    ensures Replace(instant + [separator] + fraction, '-', '.') == instant + "." + fraction
    ensures Replace(instant + [separator] + fraction, '.', '-') == instant + "-" + fraction
  {
    var s := instant + [separator] + fraction;
    forall i | 0 <= i < |s|
      ensures i != 16 ==> s[i] != '-' && s[i] != '.'
    {
      if i < 8 {
        assert s[i] == instant[..8][i];
      } else if 9 <= i < 15 {
        assert s[i] == instant[9..15][i - 9];
      } else if i > 16 {
        assert s[i] == fraction[i - 17];
      }
    }
    assert Replace(s, '-', '.') == instant + "." + fraction;
    assert Replace(s, '.', '-') == instant + "-" + fraction;
  }

  lemma {:induction false} MatchParts(payload: string, instant: string, fraction: string, random: string)
    requires || Matches(payload, '.', 10, 50, instant, fraction, random)
             || Matches(payload, '-', 10, 10, instant, fraction, random)
    ensures PartsOf(payload) == Some(Parts(instant + "." + fraction, random))
  {
    ShapedExact(payload, '.', 10, 50);
    ShapedExact(payload, '-', 10, 10);
    if Matches(payload, '.', 10, 50, instant, fraction, random) {
      assert payload[..17 + |fraction|] == instant + "." + fraction;
    } else {
      assert payload[..17 + |fraction|] == instant + "-" + fraction;
      assert payload[16] == '-';
      Compact(instant, fraction, '-');
    }
  }
}
