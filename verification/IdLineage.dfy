/** Deriving child IDs from immutable parents (src/metaproc/ids.py).  SHA-256 of a text, read as a big-endian
    number, is the parameter `digest`; the registered prefixes are the parameter `registered`. */
module IdLineage {
  import opened Common
  import opened Numerals
  import opened TypedIds

  const DERIVED_ID_LENGTH := 14
  const TIMESTAMPED_DERIVED_ID_LENGTH := 10
  const MAX_DERIVED_ID_LENGTH := 50

  datatype Failure = UnregisteredPrefix | NegativeOrdinal | NotRegisteredId | NotTimestamped | EmptyKey | BadLength
                   | LengthChange
  datatype Result = Ok(id: string) | Err(failure: Failure)

  type Digest = string -> nat

  /** Only valid prefixes are ever registered. */
  ghost predicate Registry(registered: set<string>) {
    forall p | p in registered :: IsPrefix(p)
  }

  ghost predicate Sha256(digest: Digest) {
    forall text :: digest(text) < Pow(2, 256)
  }

  predicate IsRegisteredId(registered: set<string>, value: string) {
    Parse(value).Some? && Parse(value).value.prefix in registered
  }

  /** The text whose digest names a child. */
  function Identity(parent: string, key: string): string {
    parent + "\U{1f}" + key
  }

  function Payload(number: nat, length: nat): string {
    Encode(Base36, number % Pow(36, length), length)
  }

  /** `derive_timestamped_typed_child_id`. */
  function DeriveTimestamped(registered: set<string>, digest: Digest, prefix: string, parent: string, key: string,
                             length: int): Result {
    if prefix !in registered then Err(UnregisteredPrefix)
    else if !IsRegisteredId(registered, parent) then Err(NotRegisteredId)
    else
      var id := Parse(parent).value;
      var parts := PartsOf(id.payload);
      if parts.None? then Err(NotTimestamped)
      else if key == "" then Err(EmptyKey)
      else if !(TIMESTAMPED_DERIVED_ID_LENGTH <= length <= MAX_DERIVED_ID_LENGTH) then Err(BadLength)
      else if id.delimiter == '_' && length != TIMESTAMPED_DERIVED_ID_LENGTH then Err(LengthChange)
      else
        var derived := Payload(digest(Identity(parent, key)), length);
        var timestamp := parts.value.timestamp;
        if id.delimiter == '_' then Ok(prefix + "_" + Replace(timestamp, '.', '-') + "-" + derived)
        else Ok(prefix + "-" + timestamp + "." + derived)
  }

  lemma {:induction false} PayloadShape(number: nat, length: nat)
    requires length > 0
    ensures IsRandom(Payload(number, length), length, length)
    ensures Value(Base36, Payload(number, length)) == number % Pow(36, length)
  {
    EncodeValue(Base36, number % Pow(36, length), length);
    EncodeWidth(Base36, number % Pow(36, length), length);
  }

  /** An ID of a run, as far as its descendants keep it: the delimiter and the timestamp. */
  ghost predicate Timestamped(value: string, delimiter: char, timestamp: string) {
    && Parse(value).Some? && Parse(value).value.delimiter == delimiter
    && PartsOf(Parse(value).value.payload).Some? && PartsOf(Parse(value).value.payload).value.timestamp == timestamp
  }

  lemma {:induction false} InstantChars(instant: string, i: nat)
    requires IsInstant(instant) && i < 16
    ensures IsAlphanumeric(instant[i])
  {
    if i < 8 {
      assert instant[i] == instant[..8][i];
    } else if 9 <= i < 15 {
      assert instant[i] == instant[9..15][i - 9];
    }
  }

  lemma {:induction false} MatchIsPayload(payload: string, separator: char, instant: string, fraction: string,
                                          random: string)
    requires Matches(payload, separator, 10, 50, instant, fraction, random) && (separator == '.' || separator == '-')
    ensures IsPayload(payload)
  {
    forall i | 0 <= i < |payload|
      ensures IsAlphanumeric(payload[i]) || payload[i] == separator
      ensures i == 0 ==> IsAlphanumeric(payload[i])
    {
      if i < 16 {
        InstantChars(instant, i);
      } else if 16 < i < 17 + |fraction| {
        assert payload[i] == fraction[i - 17];
      } else if i > 17 + |fraction| {
        assert payload[i] == random[i - 18 - |fraction|];
      }
    }
  }

  lemma {:induction false} BuiltChild(prefix: string, delimiter: char, instant: string, fraction: string,
                                      derived: string)
    requires IsPrefix(prefix) && IsDelimiter(delimiter) && IsInstant(instant) && fraction != ""
    requires Base10.Spells(fraction) && IsRandom(derived, 10, if delimiter == '_' then 10 else 50)
    ensures var separator := if delimiter == '_' then "-" else ".";
      var payload := instant + separator + fraction + separator + derived;
      && Parse(prefix + [delimiter] + payload) == Some(TypedId(prefix, delimiter, payload))
      && PartsOf(payload) == Some(Parts(instant + "." + fraction, derived))
      && Shaped(payload, separator[0], 10, 50)
  {
    var separator := if delimiter == '_' then '-' else '.';
    var payload := instant + [separator] + fraction + [separator] + derived;
    assert Matches(payload, separator, 10, 50, instant, fraction, derived);
    MatchIsPayload(payload, separator, instant, fraction, derived);
    MatchParts(payload, instant, fraction, derived);
    MatchSplit(payload, separator, 10, 50, instant, fraction, derived);
    ParseExact(prefix + [delimiter] + payload, TypedId(prefix, delimiter, payload));
  }

  /** A derived child is a well-formed timestamped ID with the parent's delimiter and normalised timestamp, in the
      payload shape of its delimiter, and its random part spells the digest of parent and key. */
  lemma {:induction false} TimestampedChild(registered: set<string>, digest: Digest, prefix: string, parent: string,
                                            key: string, length: int)
    requires Registry(registered)
    requires DeriveTimestamped(registered, digest, prefix, parent, key, length).Ok?
    ensures var child := DeriveTimestamped(registered, digest, prefix, parent, key, length).id;
      var id := Parse(parent).value;
      && IsRegisteredId(registered, child) && Parse(child).value.prefix == prefix
      && Timestamped(child, id.delimiter, PartsOf(id.payload).value.timestamp)
      && var random := PartsOf(Parse(child).value.payload).value.random;
         && |random| == length && Base36.Spells(random)
         && Value(Base36, random) == digest(Identity(parent, key)) % Pow(36, length)
         && Shaped(Parse(child).value.payload, if id.delimiter == '_' then '-' else '.', 10, 50)
  {
    hide Payload, PartsOf, Parse, Shaped, Value, Identity;
    var id := Parse(parent).value;
    DelimiterOf(parent);
    var timestamp := PartsOf(id.payload).value.timestamp;
    var instant, fraction := TimestampSplit(id.payload);
    var number := digest(Identity(parent, key));
    PayloadShape(number, length);
    Compact(instant, fraction, '.');
    var derived := Payload(number, length);
    BuiltChild(prefix, id.delimiter, instant, fraction, derived);
    var child := DeriveTimestamped(registered, digest, prefix, parent, key, length).id;
    if id.delimiter == '_' {
      SameText(prefix, "_", instant, "-", fraction, derived);
    } else {
      SameText(prefix, "-", instant, ".", fraction, derived);
    }
  }

  lemma {:induction false} DelimiterOf(value: string)
    requires Parse(value).Some?
    ensures IsDelimiter(Parse(value).value.delimiter)
  {
    ParseExact(value, Parse(value).value);
  }

  lemma {:induction false} TimestampSplit(payload: string) returns (instant: string, fraction: string)
    requires PartsOf(payload).Some?
    ensures IsTimestamp(PartsOf(payload).value.timestamp, instant, fraction)
  {
    PartsSplit(payload);
    instant, fraction :| IsTimestamp(PartsOf(payload).value.timestamp, instant, fraction);
  }

  lemma {:induction false} SameText(prefix: string, delimiter: string, instant: string, separator: string,
                                    fraction: string, derived: string)
    ensures prefix + delimiter + (instant + separator + fraction) + separator + derived
         == prefix + delimiter + (instant + separator + fraction + separator + derived)
  {
  }

  // ----- chains of derivations

  datatype Step = Step(prefix: string, key: string, length: int)

  /** A descendant: each step derives a child of the last one. */
  function Descend(registered: set<string>, digest: Digest, ancestor: string, steps: seq<Step>): Result
    decreases |steps|
  {
    if steps == [] then Ok(ancestor)
    else
      var last := steps[|steps| - 1];
      var parent := Descend(registered, digest, ancestor, steps[..|steps| - 1]);
      if parent.Err? then parent
      else DeriveTimestamped(registered, digest, last.prefix, parent.id, last.key, last.length)
  }

  /** What a caller can check of its own arguments, knowing only the ancestor's delimiter. */
  ghost predicate StepFits(registered: set<string>, delimiter: char, s: Step) {
    s.prefix in registered && s.key != "" && 10 <= s.length <= 50 && (delimiter == '_' ==> s.length == 10)
  }

  /** One derivation from a timestamped ID succeeds exactly if its own arguments fit. */
  lemma {:induction false} StepExact(registered: set<string>, digest: Digest, parent: string, s: Step, delimiter: char,
                                     timestamp: string)
    requires Registry(registered) && IsRegisteredId(registered, parent) && Timestamped(parent, delimiter, timestamp)
    ensures var r := DeriveTimestamped(registered, digest, s.prefix, parent, s.key, s.length);
      && (r.Ok? <==> StepFits(registered, delimiter, s))
      && (r.Ok? ==> IsRegisteredId(registered, r.id) && Timestamped(r.id, delimiter, timestamp))
  {
    hide PartsOf, Parse, Payload, Identity;
    if DeriveTimestamped(registered, digest, s.prefix, parent, s.key, s.length).Ok? {
      TimestampedChild(registered, digest, s.prefix, parent, s.key, s.length);
    }
  }

  /** Every generation of a run's ID keeps its delimiter and timestamp, and no derivation down the line is refused
      for what an earlier one produced: it succeeds exactly if each step's own arguments fit. */
  lemma {:induction false} LineageKept(registered: set<string>, digest: Digest, ancestor: string, steps: seq<Step>,
                                       delimiter: char, timestamp: string)
    requires Registry(registered) && IsRegisteredId(registered, ancestor)
    requires Timestamped(ancestor, delimiter, timestamp)
    ensures var r := Descend(registered, digest, ancestor, steps);
      && (r.Ok? <==> forall k | 0 <= k < |steps| :: StepFits(registered, delimiter, steps[k]))
      && (r.Ok? ==> IsRegisteredId(registered, r.id) && Timestamped(r.id, delimiter, timestamp))
    decreases |steps|
  {
    hide DeriveTimestamped, Timestamped, StepFits, IsRegisteredId;
    if steps != [] {
      var n := |steps| - 1;
      var last := steps[n];
      LineageKept(registered, digest, ancestor, steps[..n], delimiter, timestamp);
      var parent := Descend(registered, digest, ancestor, steps[..n]);
      assert forall k | 0 <= k < n :: steps[..n][k] == steps[k];
      if parent.Ok? {
        StepExact(registered, digest, parent.id, last, delimiter, timestamp);
        assert forall k | 0 <= k < n :: StepFits(registered, delimiter, steps[k]);
      } else {
        assert exists k | 0 <= k < n :: !StepFits(registered, delimiter, steps[..n][k]);
      }
    }
  }

  // ----- when two derivations meet

  /** Parent and key are recovered from the text that is digested: no typed ID has the separator. */
  lemma {:induction false} IdentityInjective(parent: string, key: string, parent': string, key': string)
    requires Parse(parent).Some? && Parse(parent').Some? && Identity(parent, key) == Identity(parent', key')
    ensures parent == parent' && key == key'
  {
    NoSeparator(parent);
    NoSeparator(parent');
    var s, m, n := Identity(parent, key), |parent|, |parent'|;
    assert s[m] == s[n] == '\U{1f}';
    assert forall i | 0 <= i < m :: s[i] == parent[i] && s[i] != '\U{1f}';
    assert forall i | 0 <= i < n :: s[i] == parent'[i] && s[i] != '\U{1f}';
    assert m == n;
    assert parent == s[..m] && key == s[m + 1..] && parent' == s[..m] && key' == s[m + 1..];
  }

  lemma {:induction false} NoSeparator(value: string)
    requires Parse(value).Some?
    ensures '\U{1f}' !in value
  {
    var id := Parse(value).value;
    ParseExact(value, id);
    assert forall i | 0 <= i < |id.prefix| :: id.prefix[i] != '\U{1f}';
    assert forall i | 0 <= i < |id.payload| :: id.payload[i] != '\U{1f}';
  }

  /** Two derived IDs are the same exactly if prefix, delimiter, timestamp and width agree and the digests agree
      modulo the namespace. */
  lemma {:induction false} SameChild(registered: set<string>, digest: Digest, p: string, parent: string, key: string,
                                     length: int, p': string, parent': string, key': string, length': int)
    requires Registry(registered)
    ensures var r := DeriveTimestamped(registered, digest, p, parent, key, length);
      var r' := DeriveTimestamped(registered, digest, p', parent', key', length');
      r.Ok? && r'.Ok? ==>
        (r == r' <==>
           var id, id' := Parse(parent).value, Parse(parent').value;
           && p == p' && id.delimiter == id'.delimiter && length == length'
           && PartsOf(id.payload).value.timestamp == PartsOf(id'.payload).value.timestamp
           && digest(Identity(parent, key)) % Pow(36, length) == digest(Identity(parent', key')) % Pow(36, length))
  {
    hide PartsOf, Parse, Shaped, Value, Identity, Encode, Pow;
    if DeriveTimestamped(registered, digest, p, parent, key, length).Ok?
       && DeriveTimestamped(registered, digest, p', parent', key', length').Ok? {
      TimestampedChild(registered, digest, p, parent, key, length);
      TimestampedChild(registered, digest, p', parent', key', length');
    }
  }

  lemma {:induction false} DigestWidths()
    ensures Pow(36, 49) < Pow(2, 256) <= Pow(36, 50)
  {
    hide Pow;
    HalfWidths();
    Powers36();
    PowSum(36, 24, 24);
    PowSum(2, 128, 128);
    PowSum(36, 48, 1);
    PowSum(36, 48, 2);
    Widths(Pow(36, 24), Pow(2, 128));
  }

  lemma {:induction false} Widths(x: nat, y: nat)
    requires 6 * x < y <= 36 * x
    ensures x * x * 36 < y * y <= x * x * (36 * 36)
  {
    Squares(6 * x, y);
    Squares(y, 36 * x);
  }

  lemma {:induction false} HalfWidths()
    ensures 6 * Pow(36, 24) < Pow(2, 128) <= 36 * Pow(36, 24)
  {
    Powers36();
    hide Pow;
    PowSum(36, 6, 6);
    PowSum(36, 12, 12);
    PowSum(2, 8, 8);
    PowSum(2, 16, 16);
    PowSum(2, 32, 32);
    PowSum(2, 64, 64);
  }

  lemma {:induction false} Powers36()
    ensures Pow(36, 1) == 36 && Pow(36, 2) == 36 * 36 && Pow(36, 6) == 2176782336 && Pow(2, 8) == 256
  {
  }

  lemma {:induction false} Squares(x: nat, y: nat)
    ensures x < y ==> x * x < y * y
    ensures x <= y ==> x * x <= y * y
  {
    if x < y {
      Scaled(x, x, y);
      Scaled(y, x + 1, y);
    }
  }

  /** At the widest length the namespace loses nothing: different parents or keys give one ID only if the digest
      itself collides on their texts. */
  lemma {:induction false} WidestNeverMeets(registered: set<string>, digest: Digest, p: string, parent: string,
                                            key: string, p': string, parent': string, key': string)
    requires Registry(registered) && Sha256(digest)
    ensures var r := DeriveTimestamped(registered, digest, p, parent, key, 50);
      r.Ok? && r == DeriveTimestamped(registered, digest, p', parent', key', 50) ==>
        p == p'
        && ((parent == parent' && key == key') || Collide(digest, Identity(parent, key), Identity(parent', key')))
  {
    hide PartsOf, Parse, Identity, Pow;
    var r := DeriveTimestamped(registered, digest, p, parent, key, 50);
    if r.Ok? && r == DeriveTimestamped(registered, digest, p', parent', key', 50) {
      SameChild(registered, digest, p, parent, key, 50, p', parent', key', 50);
      DigestWidths();
      var number, number' := digest(Identity(parent, key)), digest(Identity(parent', key'));
      SmallModulus(number, Pow(36, 50));
      SmallModulus(number', Pow(36, 50));
      if Identity(parent, key) == Identity(parent', key') { IdentityInjective(parent, key, parent', key'); }
    }
  }

  ghost predicate Collide(digest: Digest, s: string, t: string) {
    s != t && digest(s) == digest(t)
  }

  lemma {:induction false} SmallModulus(n: nat, m: nat)
    requires n < m
    ensures n % m == n
  {
  }

  // ----- children without a timestamp

  /** `derive_typed_child_id` keeps the serialisation of its parent: hyphen IDs, underscore IDs with a compact or a
      timestamped payload, and underscore IDs of the base-32 era. */
  datatype Family = Hyphen | UnderscoreCompact | UnderscoreBase32

  function FamilyOf(id: TypedId): Family {
    if id.delimiter == '-' then Hyphen
    else if IsRandom(id.payload, 14, 14) || Shaped(id.payload, '-', 10, 10) then UnderscoreCompact
    else UnderscoreBase32
  }

  ghost predicate CompactRandom(payload: string) {
    |payload| == 14 && forall i | 0 <= i < 14 :: SmallOrDigit(payload[i])
  }

  ghost predicate HistoricalTimestamped(payload: string) {
    exists instant, fraction, random :: Matches(payload, '-', 10, 10, instant, fraction, random)
  }

  /** The underscore IDs with a compact serialisation carry fourteen small letters and digits, or an instant, a
      fraction and ten of them with hyphens between. */
  lemma {:induction false} FamilyExactly(id: TypedId)
    ensures FamilyOf(id).Hyphen? <==> id.delimiter == '-'
    ensures FamilyOf(id).UnderscoreCompact? <==>
      id.delimiter != '-' && (CompactRandom(id.payload) || HistoricalTimestamped(id.payload))
  {
    ShapedExact(id.payload, '-', 10, 10);
    hide Matches, Shaped;
  }

  /** The base-32 text of the first twenty bytes of a digest. */
  function LegacyPayload(number: nat): string {
    Encode(Base32, number / Pow(2, 96), 32)
  }

  function DeriveChild(registered: set<string>, digest: Digest, prefix: string, parent: string, ordinal: int,
                       length: int): Result {
    if prefix !in registered then Err(UnregisteredPrefix)
    else if ordinal < 0 then Err(NegativeOrdinal)
    else if !IsRegisteredId(registered, parent) then Err(NotRegisteredId)
    else if !(12 <= length <= MAX_DERIVED_ID_LENGTH) then Err(BadLength)
    else
      var id := Parse(parent).value;
      var number := digest(Identity(parent, Spell(Base10, ordinal)));
      if !FamilyOf(id).UnderscoreBase32? then Ok(prefix + [id.delimiter] + Payload(number, length))
      else if length != DERIVED_ID_LENGTH then Err(LengthChange)
      else Ok(prefix + [id.delimiter] + LegacyPayload(number))
  }

  lemma {:induction false} PowSum(b: nat, m: nat, n: nat)
    ensures Pow(b, m + n) == Pow(b, m) * Pow(b, n)
  {
    if m > 0 {
      PowSum(b, m - 1, n);
      Regrouped(b, Pow(b, m - 1), Pow(b, n));
    }
  }

  lemma {:induction false} Regrouped(x: nat, y: nat, z: nat)
    ensures x * (y * z) == x * y * z
  {
  }

  lemma {:induction false} Pow32(n: nat)
    ensures Pow(32, n) == Pow(2, 5 * n)
  {
    if n > 0 {
      Pow32(n - 1);
      PowSum(2, 5, 5 * (n - 1));
      assert Pow(2, 5) == 32;
    }
  }

  lemma {:induction false} LegacyShape(number: nat)
    requires number < Pow(2, 256)
    ensures |LegacyPayload(number)| == 32 && Base32.Spells(LegacyPayload(number))
    ensures Value(Base32, LegacyPayload(number)) == number / Pow(2, 96)
  {
    hide Pow;
    PowSum(2, 96, 160);
    Pow32(32);
    assert 96 + 160 == 256 && 5 * 32 == 160;
    Quotient(Pow(2, 96), number, Pow(32, 32));
    EncodeValue(Base32, number / Pow(2, 96), 32);
    EncodeWidth(Base32, number / Pow(2, 96), 32);
  }

  lemma {:induction false} PlainChild(prefix: string, delimiter: char, payload: string)
    requires IsPrefix(prefix) && IsDelimiter(delimiter) && payload != "" && Base36.Spells(payload)
    ensures Parse(prefix + [delimiter] + payload) == Some(TypedId(prefix, delimiter, payload))
    ensures PartsOf(payload).None? && !Shaped(payload, '-', 10, 10)
  {
    ParseExact(prefix + [delimiter] + payload, TypedId(prefix, delimiter, payload));
  }

  /** Whatever the parent, a child has its delimiter and its family's payload, and spells its digest; the child of
      a timestamped parent is no timestamped ID. */
  lemma {:induction false} ChildShape(registered: set<string>, digest: Digest, prefix: string, parent: string,
                                      ordinal: int, length: int)
    requires Registry(registered) && Sha256(digest)
    requires DeriveChild(registered, digest, prefix, parent, ordinal, length).Ok?
    ensures var child := DeriveChild(registered, digest, prefix, parent, ordinal, length).id;
      var id := Parse(parent).value;
      var number := digest(Identity(parent, Spell(Base10, ordinal)));
      && IsRegisteredId(registered, child) && Parse(child).value.prefix == prefix
      && Parse(child).value.delimiter == id.delimiter
      && var payload := Parse(child).value.payload;
         && PartsOf(payload).None? && Base36.Spells(payload)
         && (if FamilyOf(id).UnderscoreBase32? then
               |payload| == 32 && Base32.Spells(payload) && Value(Base32, payload) == number / Pow(2, 96)
             else
               |payload| == length && Value(Base36, payload) == number % Pow(36, length))
         && (FamilyOf(Parse(child).value) == FamilyOf(id) <==> length == 14 || id.delimiter == '-')
  {
    hide PartsOf, Parse, Shaped, Value, Identity, Payload, LegacyPayload, Pow;
    var id := Parse(parent).value;
    DelimiterOf(parent);
    var number := digest(Identity(parent, Spell(Base10, ordinal)));
    PayloadShape(number, length);
    LegacyShape(number);
    PlainChild(prefix, id.delimiter, Payload(number, length));
    PlainChild(prefix, id.delimiter, LegacyPayload(number));
  }

  /** The payload of a child, from the family of its parent and the number that its digest stands for. */
  function ChildPayload(family: Family, number: nat, length: nat): string {
    if family.UnderscoreBase32? then LegacyPayload(number) else Payload(number, length)
  }

  /** When two payloads are the same text.  Those of one family agree if the digests do, modulo the namespace or in
      their first twenty bytes; those of both families, only at length 32, where a base-32 text is a base-36 text
      too. */
  ghost predicate SamePayload(family: Family, number: nat, length: nat, family': Family, number': nat, length': nat) {
    if family.UnderscoreBase32? && family'.UnderscoreBase32? then number / Pow(2, 96) == number' / Pow(2, 96)
    else if family.UnderscoreBase32? then
      length' == 32 && Base36.Spells(LegacyPayload(number))
      && Value(Base36, LegacyPayload(number)) == number' % Pow(36, 32)
    else if family'.UnderscoreBase32? then
      length == 32 && Base36.Spells(LegacyPayload(number'))
      && number % Pow(36, 32) == Value(Base36, LegacyPayload(number'))
    else length == length' && number % Pow(36, length) == number' % Pow(36, length)
  }

  lemma {:induction false} LegacyIsBase36(number: nat)
    requires number < Pow(2, 256)
    ensures Base36.Spells(LegacyPayload(number)) && |LegacyPayload(number)| == 32
  {
    hide Pow;
    LegacyShape(number);
  }

  lemma {:induction false} LegacyAgainstCompact(number: nat, number': nat, length: nat)
    requires number < Pow(2, 256) && length > 0
    ensures Base36.Spells(LegacyPayload(number))
    ensures LegacyPayload(number) == Payload(number', length) <==>
      length == 32 && Value(Base36, LegacyPayload(number)) == number' % Pow(36, 32)
  {
    hide Pow, Payload, LegacyPayload, Value;
    LegacyIsBase36(number);
    PayloadShape(number', length);
    if length == 32 && Value(Base36, LegacyPayload(number)) == number' % Pow(36, 32) {
      ValueInjective(Base36, LegacyPayload(number), Payload(number', length));
    }
  }

  lemma {:induction false} SamePayloadExact(family: Family, number: nat, length: nat, family': Family, number': nat,
                                            length': nat)
    requires number < Pow(2, 256) && number' < Pow(2, 256) && length > 0 && length' > 0
    ensures ChildPayload(family, number, length) == ChildPayload(family', number', length') <==>
      SamePayload(family, number, length, family', number', length')
  {
    hide Pow, Payload, LegacyPayload, Value;
    LegacyShape(number);
    LegacyShape(number');
    PayloadShape(number, length);
    PayloadShape(number', length');
    LegacyAgainstCompact(number, number', length');
    LegacyAgainstCompact(number', number, length);
    if number / Pow(2, 96) == number' / Pow(2, 96) { SameNumber(number, number'); }
    if length == length' && number % Pow(36, length) == number' % Pow(36, length) {
      SameRemainder(number, number', length);
    }
  }

  lemma {:induction false} SameNumber(number: nat, number': nat)
    requires number / Pow(2, 96) == number' / Pow(2, 96)
    ensures LegacyPayload(number) == LegacyPayload(number')
  {
  }

  lemma {:induction false} SameRemainder(number: nat, number': nat, length: nat)
    requires number % Pow(36, length) == number' % Pow(36, length)
    ensures Payload(number, length) == Payload(number', length)
  {
  }

  /** Two children are the same ID exactly if prefix, delimiter and payload are. */
  lemma {:induction false} SamePlainChild(registered: set<string>, digest: Digest, p: string, parent: string,
                                          ordinal: int, length: int, p': string, parent': string, ordinal': int,
                                          length': int)
    requires Registry(registered) && Sha256(digest)
    ensures var r := DeriveChild(registered, digest, p, parent, ordinal, length);
      var r' := DeriveChild(registered, digest, p', parent', ordinal', length');
      r.Ok? && r'.Ok? ==>
        (r == r' <==>
           var id, id' := Parse(parent).value, Parse(parent').value;
           && p == p' && id.delimiter == id'.delimiter
           && SamePayload(FamilyOf(id), digest(Identity(parent, Spell(Base10, ordinal))), length,
                          FamilyOf(id'), digest(Identity(parent', Spell(Base10, ordinal'))), length'))
  {
    hide Parse, FamilyOf, Identity, Payload, LegacyPayload, SamePayload, Pow, Spell;
    var r := DeriveChild(registered, digest, p, parent, ordinal, length);
    var r' := DeriveChild(registered, digest, p', parent', ordinal', length');
    if r.Ok? && r'.Ok? {
      var id, id' := Parse(parent).value, Parse(parent').value;
      var number := digest(Identity(parent, Spell(Base10, ordinal)));
      var number' := digest(Identity(parent', Spell(Base10, ordinal')));
      SamePayloadExact(FamilyOf(id), number, length, FamilyOf(id'), number', length');
      ChildSplit(registered, digest, p, parent, ordinal, length);
      ChildSplit(registered, digest, p', parent', ordinal', length');
    }
  }

  lemma {:induction false} ChildSplit(registered: set<string>, digest: Digest, prefix: string, parent: string,
                                      ordinal: int, length: int)
    requires Registry(registered) && Sha256(digest)
    requires DeriveChild(registered, digest, prefix, parent, ordinal, length).Ok?
    ensures var child := DeriveChild(registered, digest, prefix, parent, ordinal, length).id;
      var id := Parse(parent).value;
      var number := digest(Identity(parent, Spell(Base10, ordinal)));
      && child == prefix + [id.delimiter] + ChildPayload(FamilyOf(id), number, length)
      && Parse(child) == Some(TypedId(prefix, id.delimiter, ChildPayload(FamilyOf(id), number, length)))
  {
    hide PartsOf, Parse, Shaped, Value, Identity, Payload, LegacyPayload, Pow;
    var id := Parse(parent).value;
    DelimiterOf(parent);
    var number := digest(Identity(parent, Spell(Base10, ordinal)));
    PayloadShape(number, length);
    LegacyShape(number);
    PlainChild(prefix, id.delimiter, ChildPayload(FamilyOf(id), number, length));
  }

  /** At the widest length different parents or ordinals give one child only if the digest itself collides on their
      texts. */
  lemma {:induction false} WidestPlainNeverMeets(registered: set<string>, digest: Digest, p: string, parent: string,
                                                 ordinal: int, p': string, parent': string, ordinal': int)
    requires Registry(registered) && Sha256(digest)
    ensures var r := DeriveChild(registered, digest, p, parent, ordinal, 50);
      r.Ok? && r == DeriveChild(registered, digest, p', parent', ordinal', 50) ==>
        p == p' && ((parent == parent' && ordinal == ordinal')
                    || Collide(digest, Identity(parent, Spell(Base10, ordinal)),
                               Identity(parent', Spell(Base10, ordinal'))))
  {
    hide Parse, FamilyOf, Identity, Payload, LegacyPayload, Pow, Spell;
    var r := DeriveChild(registered, digest, p, parent, ordinal, 50);
    if r.Ok? && r == DeriveChild(registered, digest, p', parent', ordinal', 50) {
      SamePlainChild(registered, digest, p, parent, ordinal, 50, p', parent', ordinal', 50);
      DigestWidths();
      var s, s' := Identity(parent, Spell(Base10, ordinal)), Identity(parent', Spell(Base10, ordinal'));
      SmallModulus(digest(s), Pow(36, 50));
      SmallModulus(digest(s'), Pow(36, 50));
      if s == s' {
        IdentityInjective(parent, Spell(Base10, ordinal), parent', Spell(Base10, ordinal'));
        SpellInjective(Base10, ordinal, ordinal');
      }
    }
  }

  lemma {:induction false} ChildSucceeds(registered: set<string>, digest: Digest, prefix: string, parent: string,
                                         ordinal: nat)
    requires prefix in registered && IsRegisteredId(registered, parent)
    ensures DeriveChild(registered, digest, prefix, parent, ordinal, 14).Ok?
  {
  }

  datatype ChildStep = ChildStep(prefix: string, ordinal: nat)

  function DescendPlain(registered: set<string>, digest: Digest, ancestor: string, steps: seq<ChildStep>): Result
    decreases |steps|
  {
    if steps == [] then Ok(ancestor)
    else
      var last := steps[|steps| - 1];
      var parent := DescendPlain(registered, digest, ancestor, steps[..|steps| - 1]);
      if parent.Err? then parent else DeriveChild(registered, digest, last.prefix, parent.id, last.ordinal, 14)
  }

  /** At the default length each of the three families is closed: any chain of children, under registered prefixes,
      succeeds and stays in its ancestor's family. */
  lemma {:induction false} FamilyClosed(registered: set<string>, digest: Digest, ancestor: string,
                                        steps: seq<ChildStep>)
    requires Registry(registered) && Sha256(digest) && IsRegisteredId(registered, ancestor)
    requires forall k | 0 <= k < |steps| :: steps[k].prefix in registered
    ensures var r := DescendPlain(registered, digest, ancestor, steps);
      && r.Ok? && IsRegisteredId(registered, r.id)
      && FamilyOf(Parse(r.id).value) == FamilyOf(Parse(ancestor).value)
      && Parse(r.id).value.delimiter == Parse(ancestor).value.delimiter
    decreases |steps|
  {
    hide Parse, FamilyOf, PartsOf, Identity, Pow, DeriveChild;
    if steps != [] {
      var last := steps[|steps| - 1];
      FamilyClosed(registered, digest, ancestor, steps[..|steps| - 1]);
      var parent := DescendPlain(registered, digest, ancestor, steps[..|steps| - 1]).id;
      ChildSucceeds(registered, digest, last.prefix, parent, last.ordinal);
      ChildShape(registered, digest, last.prefix, parent, last.ordinal, 14);
    }
  }
}
