/** The Argon2id password-hash string of internal/auth/password_encode.go. */
module PasswordHash {
  import opened Wrappers
  import opened Text
  import opened Base64

  const VERSION: nat := 19
  const MIN_SALT_BYTES: nat := 16
  const MIN_KEY_BYTES: nat := 32
  const TWO_32: nat := 0x1_0000_0000
  const TWO_63: nat := 0x8000_0000_0000_0000

  type U32 = n: nat | n < 0x1_0000_0000
  type U8 = n: nat | n < 256

  datatype Costs = Costs(memoryKiB: U32, iterations: U32, parallelism: U8)
  datatype Params = Params(costs: Costs, saltBytes: U32, keyBytes: U32)
  datatype Parsed = Parsed(params: Params, salt: seq<Byte>, hash: seq<Byte>)

  /** validatePasswordParams. */
  predicate ValidParams(p: Params) {
    && p.costs.memoryKiB >= 19 * 1024
    && p.costs.iterations >= 2
    && p.costs.parallelism >= 1
    && p.saltBytes >= MIN_SALT_BYTES
    && p.keyBytes >= MIN_KEY_BYTES
  }

  function Field(key: string, value: string): string {
    key + ['='] + value
  }

  function EncodeCosts(c: Costs): string {
    Join([Field("m", FormatNat(c.memoryKiB)), Field("t", FormatNat(c.iterations)), Field("p", FormatNat(c.parallelism))], ',')
  }

  /** encodePasswordHash: "$argon2id$v=19$m=..,t=..,p=..$salt$hash". */
  function EncodePasswordHash(c: Costs, salt: seq<Byte>, hash: seq<Byte>): string {
    Wrapped(EncodeCosts(c), salt, hash)
  }

  /** strconv.Atoi: an optional sign, then decimal digits, within 64 signed bits. */
  function Atoi(s: string): Option<int> {
    if s != "" && (s[0] == '-' || s[0] == '+') then
      match ParseUint(s[1..], if s[0] == '-' then TWO_63 + 1 else TWO_63)
      case Some(n) =>
        var magnitude: int := n;
        Some(if s[0] == '-' then -magnitude else magnitude)
      case None => None
    else
      match ParseUint(s, TWO_63)
      case Some(n) => Some(n)
      case None => None
  }

  function ParseVersion(raw: string): Result<int> {
    if |raw| < 2 || raw[..2] != "v=" then Err(InvalidArgument)
    else
      match Atoi(raw[2..])
      case Some(v) => Ok(v)
      case None => Err(InvalidArgument)
  }

  /** One "key=value" part, cut at its first '='. */
  function CutField(part: string): Option<(string, string)> {
    var i := IndexOf(part, '=');
    if i == |part| || i == 0 || i + 1 == |part| then None else Some((part[..i], part[i + 1..]))
  }

  /** The map the loop over `parts` fills, or None when one part is malformed. */
  function FieldMap(parts: seq<string>): Option<map<string, string>> {
    if parts == [] then Some(map[])
    else
      var last := |parts| - 1;
      match (FieldMap(parts[..last]), CutField(parts[last]))
      case (Some(m), Some(kv)) => Some(m[kv.0 := kv.1])
      case _ => None
  }

  function CostsOf(memory: string, iterations: string, parallelism: string): Result<Costs> {
    match (ParseUint(memory, TWO_32), ParseUint(iterations, TWO_32), ParseUint(parallelism, 256))
    case (Some(m), Some(t), Some(p)) => Ok(Costs(m, t, p))
    case _ => Err(InvalidArgument)
  }

  function ParseParams(raw: string): Result<Costs> {
    var parts := Split(raw, ',');
    if |parts| != 3 then Err(InvalidArgument)
    else
      match FieldMap(parts)
      case None => Err(InvalidArgument)
      case Some(m) =>
        if "m" in m && "t" in m && "p" in m then CostsOf(m["m"], m["t"], m["p"]) else Err(InvalidArgument)
  }

  /** parseParams as the source runs it: fill a map part by part, then read the three keys in turn. */
  method ParseParamsByLoop(raw: string) returns (r: Result<Costs>)
    ensures r == ParseParams(raw)
  {
    var parts := Split(raw, ',');
    if |parts| != 3 {
      return Err(InvalidArgument);
    }
    var values: map<string, string> := map[];
    var i := 0;
    while i < |parts|
      invariant 0 <= i <= |parts|
      invariant FieldMap(parts[..i]) == Some(values)
    {
      var field := CutField(parts[i]);
      assert parts[..i + 1][..i] == parts[..i];
      if field.None? {
        MalformedPart(parts, i);
        return Err(InvalidArgument);
      }
      values := values[field.value.0 := field.value.1];
      i := i + 1;
    }
    assert parts[..i] == parts;
    if "m" !in values {
      return Err(InvalidArgument);
    }
    var memory := ParseUint(values["m"], TWO_32);
    if memory.None? || "t" !in values {
      return Err(InvalidArgument);
    }
    var iterations := ParseUint(values["t"], TWO_32);
    if iterations.None? || "p" !in values {
      return Err(InvalidArgument);
    }
    var parallelism := ParseUint(values["p"], 256);
    if parallelism.None? {
      return Err(InvalidArgument);
    }
    r := Ok(Costs(memory.value, iterations.value, parallelism.value));
  }

  lemma {:induction false} MalformedPart(parts: seq<string>, i: nat)
    requires i < |parts| && CutField(parts[i]).None?
    ensures FieldMap(parts).None?
  {
    if i < |parts| - 1 {
      MalformedPart(parts[..|parts| - 1], i);
    }
  }

  /** parsePasswordHash. */
  function ParsePasswordHash(encoded: string): Result<Parsed> {
    var parts := Split(encoded, '$');
    if |parts| != 6 || parts[0] != "" then Err(InvalidArgument)
    else if parts[1] != "argon2id" then Err(InvalidArgument)
    else if ParseVersion(parts[2]) != Ok(VERSION) then Err(InvalidArgument)
    else
      match (ParseParams(parts[3]), Decode(Std, parts[4]), Decode(Std, parts[5]))
      case (Ok(costs), Ok(salt), Ok(hash)) =>
        var params := Params(costs, |salt| % TWO_32, |hash| % TWO_32);
        if ValidParams(params) then Ok(Parsed(params, salt, hash)) else Err(InvalidArgument)
      case _ => Err(InvalidArgument)
  }

  // ---- Properties ----

  lemma CutOfField(key: string, value: string)
    requires key != "" && value != "" && '=' !in key
    ensures CutField(Field(key, value)) == Some((key, value))
  {
    IndexOfFirst(key, '=', value);
    assert Field(key, value)[..|key|] == key;
    assert Field(key, value)[|key| + 1..] == value;
  }

  lemma FieldOfCut(part: string)
    requires CutField(part).Some?
    ensures Field(CutField(part).value.0, CutField(part).value.1) == part
    ensures CutField(part).value.1 != ""
  {
  }

  lemma {:induction false} WellFormedMap(parts: seq<string>)
    requires forall p | p in parts :: CutField(p).Some?
    ensures FieldMap(parts).Some?
    ensures forall p | p in parts :: CutField(p).value.0 in FieldMap(parts).value
  {
    if parts != [] {
      var last := |parts| - 1;
      WellFormedMap(parts[..last]);
      assert parts == parts[..last] + [parts[last]];
    }
  }

  lemma {:induction false} FieldFromMap(parts: seq<string>, key: string)
    requires FieldMap(parts).Some? && key in FieldMap(parts).value
    ensures Field(key, FieldMap(parts).value[key]) in parts
    ensures FieldMap(parts).value[key] != ""
  {
    var last := |parts| - 1;
    FieldOfCut(parts[last]);
    if CutField(parts[last]).value.0 != key {
      FieldFromMap(parts[..last], key);
    }
  }

  /** `raw` has three parts, among them an m, a t and a p field with these values: it is one of the six
      orderings of the three fields. */
  predicate HoldsFields(raw: string, memory: string, iterations: string, parallelism: string) {
    var parts := Split(raw, ',');
    |parts| == 3 && Field("m", memory) in parts && Field("t", iterations) in parts && Field("p", parallelism) in parts
  }

  lemma FieldsDiffer(a: string, b: string, c: string)
    ensures Field("m", a) != Field("t", b) && Field("t", b) != Field("p", c) && Field("m", a) != Field("p", c)
    ensures "m" != "t" && "t" != "p" && "m" != "p"
  {
    assert Field("m", a)[0] == 'm' && Field("t", b)[0] == 't' && Field("p", c)[0] == 'p';
    assert "m"[0] == 'm' && "t"[0] == 't' && "p"[0] == 'p';
  }

  /** Three distinct members fill a list of three. */
  lemma NoFourth(parts: seq<string>, a: string, b: string, c: string)
    requires |parts| == 3 && a in parts && b in parts && c in parts
    requires a != b && b != c && a != c
    ensures forall p | p in parts :: p == a || p == b || p == c
  {
  }

  /** In a list of these three fields, the one field with a given key carries its value. */
  lemma OrderingParses(raw: string, memory: string, iterations: string, parallelism: string)
    requires HoldsFields(raw, memory, iterations, parallelism)
    requires memory != "" && iterations != "" && parallelism != ""
    ensures ParseParams(raw) == CostsOf(memory, iterations, parallelism)
  {
    var parts := Split(raw, ',');
    var m, t, p := Field("m", memory), Field("t", iterations), Field("p", parallelism);
    CutOfField("m", memory);
    CutOfField("t", iterations);
    CutOfField("p", parallelism);
    FieldsDiffer(memory, iterations, parallelism);
    NoFourth(parts, m, t, p);
    WellFormedMap(parts);
    var fields := FieldMap(parts).value;
    assert CutField(m).value.0 in fields && CutField(t).value.0 in fields && CutField(p).value.0 in fields;
    ValueOf(parts, "m", memory, t, p);
    ValueOf(parts, "t", iterations, m, p);
    ValueOf(parts, "p", parallelism, m, t);
  }

  lemma ValueOf(parts: seq<string>, key: string, value: string, other: string, other': string)
    requires FieldMap(parts).Some? && key in FieldMap(parts).value
    requires forall p | p in parts :: p == Field(key, value) || p == other || p == other'
    requires CutField(Field(key, value)) == Some((key, value)) && '=' !in key && key != ""
    requires CutField(other).Some? && CutField(other).value.0 != key
    requires CutField(other').Some? && CutField(other').value.0 != key
    ensures FieldMap(parts).value[key] == value
  {
    var found := FieldMap(parts).value[key];
    FieldFromMap(parts, key);
    CutOfField(key, found);
  }

  lemma AcceptedHasFields(raw: string) returns (memory: string, iterations: string, parallelism: string)
    requires ParseParams(raw).Ok?
    ensures HoldsFields(raw, memory, iterations, parallelism)
    ensures CostsOf(memory, iterations, parallelism) == ParseParams(raw)
  {
    var parts := Split(raw, ',');
    var fields := FieldMap(parts).value;
    FieldFromMap(parts, "m");
    FieldFromMap(parts, "t");
    FieldFromMap(parts, "p");
    memory, iterations, parallelism := fields["m"], fields["t"], fields["p"];
  }

  /** parseParams accepts exactly the orderings of one m, one t and one p field with in-range decimal
      values, and what it returns is those values. */
  lemma ParamsAcceptedIff(raw: string, costs: Costs)
    ensures ParseParams(raw) == Ok(costs) <==>
            exists m, t, p :: HoldsFields(raw, m, t, p) && CostsOf(m, t, p) == Ok(costs)
  {
    if ParseParams(raw) == Ok(costs) {
      var m, t, p := AcceptedHasFields(raw);
    }
    forall m, t, p | HoldsFields(raw, m, t, p) && CostsOf(m, t, p) == Ok(costs)
      ensures ParseParams(raw) == Ok(costs)
    {
      OrderingParses(raw, m, t, p);
    }
  }

  /** Reordering the parts never changes the result, accepted or refused. */
  lemma OrderIrrelevant(raw: string, raw': string)
    requires multiset(Split(raw, ',')) == multiset(Split(raw', ','))
    ensures ParseParams(raw) == ParseParams(raw')
  {
    SameParts(Split(raw, ','), Split(raw', ','));
    if ParseParams(raw).Ok? {
      var m, t, p := AcceptedHasFields(raw);
      OrderingParses(raw', m, t, p);
    } else if ParseParams(raw').Ok? {
      var m, t, p := AcceptedHasFields(raw');
      OrderingParses(raw, m, t, p);
    }
  }

  lemma SameParts(a: seq<string>, b: seq<string>)
    requires multiset(a) == multiset(b)
    ensures |a| == |b| && forall p :: p in a <==> p in b
  {
    assert |a| == |multiset(a)| && |b| == |multiset(b)|;
    assert forall p :: p in a <==> p in multiset(a);
    assert forall p :: p in b <==> p in multiset(b);
  }

  lemma CostsRoundTrip(c: Costs)
    ensures ParseParams(EncodeCosts(c)) == Ok(c)
    ensures '$' !in EncodeCosts(c)
  {
    PrintedFieldsLack(c);
    FieldsParse(c, [Field("m", FormatNat(c.memoryKiB)), Field("t", FormatNat(c.iterations)), Field("p", FormatNat(c.parallelism))]);
  }

  lemma DigitsLack(s: string, a: char, b: char)
    requires AllDigits(s) && !IsDigit(a) && !IsDigit(b)
    ensures a !in s && b !in s
  {
  }

  lemma {:induction false} JoinLacks(parts: seq<string>, sep: char, c: char)
    requires parts != [] && sep != c && forall p | p in parts :: c !in p
    ensures c !in Join(parts, sep)
  {
    if |parts| > 1 {
      JoinLacks(parts[1..], sep, c);
    }
  }

  /** The hash string around a parameter text. */
  function Wrapped(params: string, salt: seq<Byte>, hash: seq<Byte>): string {
    Join(["", "argon2id", Field("v", FormatNat(VERSION)), params, Encode(Std, salt), Encode(Std, hash)], '$')
  }

  lemma WrappedSplits(params: string, salt: seq<Byte>, hash: seq<Byte>)
    requires '$' !in params
    ensures Split(Wrapped(params, salt, hash), '$')
         == ["", "argon2id", Field("v", FormatNat(VERSION)), params, Encode(Std, salt), Encode(Std, hash)]
  {
    DigitsLack(FormatNat(VERSION), '$', '+');
    SplitJoin(["", "argon2id", Field("v", FormatNat(VERSION)), params, Encode(Std, salt), Encode(Std, hash)], '$');
  }

  /** Around any parameter text that parses to these costs, parsing gives back the costs, salt and hash, and
      accepts exactly when the costs and the two lengths are valid. */
  lemma WrappedParses(params: string, c: Costs, salt: seq<Byte>, hash: seq<Byte>)
    requires ParseParams(params) == Ok(c) && '$' !in params
    ensures ParsePasswordHash(Wrapped(params, salt, hash)) ==
            var p := Params(c, |salt| % TWO_32, |hash| % TWO_32);
            if ValidParams(p) then Ok(Parsed(p, salt, hash)) else Err(InvalidArgument)
  {
    WrappedSplits(params, salt, hash);
    VersionRoundTrip();
    DecodeEncode(Std, salt);
    DecodeEncode(Std, hash);
  }

  /** Parsing an encoded hash gives back its costs, salt and hash, and accepts it exactly when the costs
      and the two lengths are valid. */
  lemma HashRoundTrip(c: Costs, salt: seq<Byte>, hash: seq<Byte>)
    ensures ParsePasswordHash(EncodePasswordHash(c, salt, hash)) ==
            var params := Params(c, |salt| % TWO_32, |hash| % TWO_32);
            if ValidParams(params) then Ok(Parsed(params, salt, hash)) else Err(InvalidArgument)
  {
    CostsRoundTrip(c);
    WrappedParses(EncodeCosts(c), c, salt, hash);
  }

  /** In numbers: a printed hash parses if and only if its memory is 19456 KiB or more, its iterations 2 or more, its
      parallelism 1 or more, its salt 16 bytes or longer and its hash 32 bytes or longer, lengths being read as 32-bit
      numbers. */
  lemma PrintedParsesIff(c: Costs, salt: seq<Byte>, hash: seq<Byte>)
    ensures ParsePasswordHash(EncodePasswordHash(c, salt, hash)).Ok? <==>
            && c.memoryKiB >= 19_456 && c.iterations >= 2 && c.parallelism >= 1
            && |salt| % 0x1_0000_0000 >= 16 && |hash| % 0x1_0000_0000 >= 32
  {
    HashRoundTrip(c, salt, hash);
  }

  lemma VersionRoundTrip()
    ensures ParseVersion(Field("v", FormatNat(VERSION))) == Ok(VERSION)
  {
    var version := FormatNat(VERSION);
    FormatNatValue(VERSION);
    assert IsDigit(version[0]);
    assert Field("v", version)[..2] == "v=" && Field("v", version)[2..] == version;
  }

  lemma SignedNumber(s: string)
    ensures Atoi(s) == Some(19) <==> exists digits :: AllDigits(digits) && DecimalValue(digits) == 19 && (s == digits || s == "+" + digits)
  {
    if Atoi(s) == Some(19) {
      var digits := if s[0] == '+' then s[1..] else s;
      assert s == digits || s == "+" + digits;
    }
    forall digits | AllDigits(digits) && DecimalValue(digits) == 19 && (s == digits || s == "+" + digits) ensures Atoi(s) == Some(19) {
      assert IsDigit(digits[0]);
      assert s != digits ==> s[0] == '+' && s[1..] == digits;
    }
  }

  /** The version is 19, in decimal digits with leading zeros and a plus sign allowed. */
  lemma VersionAcceptedIff(raw: string)
    ensures ParseVersion(raw) == Ok(19) <==>
            |raw| >= 2 && raw[..2] == "v=" &&
            exists digits :: AllDigits(digits) && DecimalValue(digits) == 19 && (raw[2..] == digits || raw[2..] == "+" + digits)
  {
    if |raw| >= 2 {
      SignedNumber(raw[2..]);
    }
  }

  // ---- When printing undoes parsing ----

  /** The fields stand in the order m, t, p, and no value has a leading zero. */
  predicate CanonicalParams(raw: string) {
    var f := Split(raw, ',');
    |f| == 3 && CanonicalField("m", f[0]) && CanonicalField("t", f[1]) && CanonicalField("p", f[2])
  }

  predicate CanonicalField(key: string, field: string) {
    |field| > |key| + 1 && field[..|key| + 1] == Field(key, "") && NoLeadingZero(field[|key| + 1..])
  }

  lemma PrintedField(key: string, n: nat)
    ensures CanonicalField(key, Field(key, FormatNat(n)))
  {
    FormatHasNoLeadingZero(n);
    assert Field(key, FormatNat(n))[..|key| + 1] == Field(key, "");
    assert Field(key, FormatNat(n))[|key| + 1..] == FormatNat(n);
  }

  lemma EncodedSplits(c: Costs)
    ensures Split(EncodeCosts(c), ',')
         == [Field("m", FormatNat(c.memoryKiB)), Field("t", FormatNat(c.iterations)), Field("p", FormatNat(c.parallelism))]
  {
    var m, t, p := FormatNat(c.memoryKiB), FormatNat(c.iterations), FormatNat(c.parallelism);
    DigitsLack(m, ',', '$');
    DigitsLack(t, ',', '$');
    DigitsLack(p, ',', '$');
    SplitJoin([Field("m", m), Field("t", t), Field("p", p)], ',');
  }

  lemma PrintedIsCanonical(c: Costs)
    ensures CanonicalParams(EncodeCosts(c))
  {
    EncodedSplits(c);
    PrintedField("m", c.memoryKiB);
    PrintedField("t", c.iterations);
    PrintedField("p", c.parallelism);
  }

  /** Of the three fields, the one that starts like a given key is the field of that key. */
  lemma FieldInPlace(f: seq<string>, i: nat, key: string, value: string)
    requires i < |f| && CanonicalField(key, f[i]) && |key| == 1 && Field(key, value) in f
    requires forall j | 0 <= j < |f| && j != i :: f[j] != "" && f[j][0] != key[0]
    requires value != ""
    ensures f[i] == Field(key, value) && NoLeadingZero(value)
  {
    var j :| 0 <= j < |f| && f[j] == Field(key, value);
    assert Field(key, value)[0] == key[0];
    assert f[i][2..] == value;
  }

  lemma CanonicalStart(key: string, field: string)
    requires CanonicalField(key, field) && |key| == 1
    ensures field != "" && field[0] == key[0]
  {
    assert field[..2][0] == Field(key, "")[0] == key[0];
  }

  lemma FieldsInPlace(raw: string, m: string, t: string, p: string)
    requires HoldsFields(raw, m, t, p) && CanonicalParams(raw) && m != "" && t != "" && p != ""
    ensures Split(raw, ',') == [Field("m", m), Field("t", t), Field("p", p)]
    ensures NoLeadingZero(m) && NoLeadingZero(t) && NoLeadingZero(p)
  {
    var f := Split(raw, ',');
    CanonicalStart("m", f[0]);
    CanonicalStart("t", f[1]);
    CanonicalStart("p", f[2]);
    FieldInPlace(f, 0, "m", m);
    FieldInPlace(f, 1, "t", t);
    FieldInPlace(f, 2, "p", p);
  }

  lemma ValuesPrint(m: string, t: string, p: string, c: Costs)
    requires CostsOf(m, t, p) == Ok(c) && NoLeadingZero(m) && NoLeadingZero(t) && NoLeadingZero(p)
    ensures FormatNat(c.memoryKiB) == m && FormatNat(c.iterations) == t && FormatNat(c.parallelism) == p
  {
    FormatOfValueIff(m);
    FormatOfValueIff(t);
    FormatOfValueIff(p);
  }

  lemma ValuesNonEmpty(m: string, t: string, p: string)
    requires CostsOf(m, t, p).Ok?
    ensures m != "" && t != "" && p != ""
  {
  }

  /** The text a canonical parameter string must be, given its values. */
  lemma CanonicalIsPrinted(raw: string, c: Costs)
    requires ParseParams(raw) == Ok(c) && CanonicalParams(raw)
    ensures EncodeCosts(c) == raw
  {
    var m, t, p := AcceptedHasFields(raw);
    ValuesNonEmpty(m, t, p);
    FieldsInPlace(raw, m, t, p);
    ValuesPrint(m, t, p, c);
    JoinSplit(raw, ',');
  }

  lemma ParamsPrintedIff(raw: string, c: Costs)
    requires ParseParams(raw) == Ok(c)
    ensures EncodeCosts(c) == raw <==> CanonicalParams(raw)
  {
    PrintedIsCanonical(c);
    if CanonicalParams(raw) {
      CanonicalIsPrinted(raw, c);
    }
  }

  /** The version reads v=19, the fields are in order and without leading zeros, and both base64 parts are
      without line breaks and with zero padding bits. */
  predicate CanonicalHash(encoded: string) {
    var parts := Split(encoded, '$');
    && |parts| == 6 && parts[2] == "v=19" && CanonicalParams(parts[3])
    && Canonical(Std, parts[4]) && Canonical(Std, parts[5])
  }

  lemma ParsedParts(encoded: string)
    requires ParsePasswordHash(encoded).Ok?
    ensures var parts, parsed := Split(encoded, '$'), ParsePasswordHash(encoded).value;
            && |parts| == 6 && parts[0] == "" && parts[1] == "argon2id"
            && ParseParams(parts[3]) == Ok(parsed.params.costs)
            && Decode(Std, parts[4]) == Ok(parsed.salt) && Decode(Std, parts[5]) == Ok(parsed.hash)
  {
  }

  lemma VersionText()
    ensures Field("v", FormatNat(VERSION)) == "v=19"
  {
    assert FormatNat(1) == [Digit(1)];
    assert FormatNat(VERSION) == FormatNat(1) + [Digit(9)];
  }

  lemma SixParts(a: seq<string>, b: seq<string>)
    requires |a| == 6 && |b| == 6 && a[0] == b[0] && a[1] == b[1]
    ensures a == b <==> a[2] == b[2] && a[3] == b[3] && a[4] == b[4] && a[5] == b[5]
  {
  }

  /** Printing what was parsed gives the string back if and only if the string is canonical. */
  lemma PrintParsedIff(encoded: string)
    requires ParsePasswordHash(encoded).Ok?
    ensures var p := ParsePasswordHash(encoded).value;
            EncodePasswordHash(p.params.costs, p.salt, p.hash) == encoded <==> CanonicalHash(encoded)
  {
    var p, parts := ParsePasswordHash(encoded).value, Split(encoded, '$');
    var costs := EncodeCosts(p.params.costs);
    ParsedParts(encoded);
    VersionText();
    ParamsPrintedIff(parts[3], p.params.costs);
    EncodeDecodeIff(Std, parts[4]);
    EncodeDecodeIff(Std, parts[5]);
    CostsRoundTrip(p.params.costs);
    WrappedSplits(costs, p.salt, p.hash);
    JoinSplit(encoded, '$');
    var printed := ["", "argon2id", Field("v", FormatNat(VERSION)), costs, Encode(Std, p.salt), Encode(Std, p.hash)];
    SixParts(printed, parts);
  }

  /** The failing input: the same costs with their fields in another order. */
  function Reordered(c: Costs): string {
    Join([Field("t", FormatNat(c.iterations)), Field("m", FormatNat(c.memoryKiB)), Field("p", FormatNat(c.parallelism))], ',')
  }

  lemma CostsPrint(c: Costs)
    ensures CostsOf(FormatNat(c.memoryKiB), FormatNat(c.iterations), FormatNat(c.parallelism)) == Ok(c)
  {
    FormatNatValue(c.memoryKiB);
    FormatNatValue(c.iterations);
    FormatNatValue(c.parallelism);
  }

  /** The printed fields in any order are a parameter string that parses to their costs. */
  lemma FieldsParse(c: Costs, parts: seq<string>)
    requires |parts| == 3
    requires Field("m", FormatNat(c.memoryKiB)) in parts && Field("t", FormatNat(c.iterations)) in parts
    requires Field("p", FormatNat(c.parallelism)) in parts
    requires forall p | p in parts :: ',' !in p && '$' !in p
    ensures ParseParams(Join(parts, ',')) == Ok(c) && '$' !in Join(parts, ',')
  {
    SplitJoin(parts, ',');
    CostsPrint(c);
    OrderingParses(Join(parts, ','), FormatNat(c.memoryKiB), FormatNat(c.iterations), FormatNat(c.parallelism));
    JoinLacks(parts, ',', '$');
  }

  lemma PrintedFieldLacks(key: string, n: nat)
    requires ',' !in key && '$' !in key
    ensures ',' !in Field(key, FormatNat(n)) && '$' !in Field(key, FormatNat(n))
  {
    DigitsLack(FormatNat(n), ',', '$');
  }

  lemma PrintedFieldsLack(c: Costs)
    ensures forall p | p in [Field("m", FormatNat(c.memoryKiB)), Field("t", FormatNat(c.iterations)), Field("p", FormatNat(c.parallelism))] ::
              ',' !in p && '$' !in p
  {
    PrintedFieldLacks("m", c.memoryKiB);
    PrintedFieldLacks("t", c.iterations);
    PrintedFieldLacks("p", c.parallelism);
  }

  lemma ReorderedParses(c: Costs)
    ensures ParseParams(Reordered(c)) == Ok(c) && '$' !in Reordered(c) && Reordered(c) != EncodeCosts(c)
  {
    PrintedFieldsLack(c);
    FieldsParse(c, [Field("t", FormatNat(c.iterations)), Field("m", FormatNat(c.memoryKiB)), Field("p", FormatNat(c.parallelism))]);
    assert Reordered(c)[0] == 't' && EncodeCosts(c)[0] == 'm';
  }

  lemma WrappedDiffer(a: string, b: string, salt: seq<Byte>, hash: seq<Byte>)
    requires '$' !in a && '$' !in b && a != b
    ensures Wrapped(a, salt, hash) != Wrapped(b, salt, hash)
  {
    WrappedSplits(a, salt, hash);
    WrappedSplits(b, salt, hash);
    assert Split(Wrapped(a, salt, hash), '$')[3] == a;
  }

  /** So for every valid hash there is a string that parses to it and is not what it prints as. */
  lemma ReorderedIsNotPrinted(c: Costs, salt: seq<Byte>, hash: seq<Byte>)
    requires ValidParams(Params(c, |salt| % TWO_32, |hash| % TWO_32))
    ensures ParsePasswordHash(Wrapped(Reordered(c), salt, hash)) == Ok(Parsed(Params(c, |salt| % TWO_32, |hash| % TWO_32), salt, hash))
    ensures EncodePasswordHash(c, salt, hash) != Wrapped(Reordered(c), salt, hash)
  {
    ReorderedParses(c);
    WrappedParses(Reordered(c), c, salt, hash);
    CostsRoundTrip(c);
    WrappedDiffer(EncodeCosts(c), Reordered(c), salt, hash);
  }
}
