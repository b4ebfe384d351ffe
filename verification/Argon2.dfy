/** The stored password string: printing, parsing and verification, for any key derivation function. */
module Argon2 {
  import opened Common
  import opened Text

  const ARGON2_VERSION := 19
  const DEFAULT_MEMORY_KIB := 64 * 1024
  const DEFAULT_TIME_COST := 3
  const DEFAULT_PARALLEL := 2
  const DEFAULT_SALT_LENGTH := 16
  const DEFAULT_KEY_LENGTH := 32
  const MIN_PEPPER_LENGTH := 32

  const UINT32_LIMIT := 0x1_0000_0000
  const UINT8_LIMIT := 0x100

  datatype Encoded = Encoded(memoryKiB: nat, timeCost: nat, parallel: nat, salt: seq<Byte>, hash: seq<Byte>)

  datatype Error =
    | InvalidFormat | UnsupportedAlgorithm | InvalidVersion | UnsupportedVersion | InvalidParams
    | InvalidSalt | EmptySalt | InvalidHash | EmptyHash

  datatype Result<T> = Ok(value: T) | Err(error: Error)

  /** What can be printed and read back. */
  predicate WellFormed(e: Encoded) {
    && 0 < e.memoryKiB < UINT32_LIMIT && 0 < e.timeCost < UINT32_LIMIT && 0 < e.parallel < UINT8_LIMIT
    && e.salt != [] && e.hash != []
  }

  // ---- printing ------------------------------------------------------------------------------------------

  function Segment(key: string, n: nat): string {
    key + "=" + PrintNat(n)
  }

  function Segments(e: Encoded): seq<string> {
    [Segment("m", e.memoryKiB), Segment("t", e.timeCost), Segment("p", e.parallel)]
  }

  function Fields(e: Encoded): seq<string> {
    ["", "argon2id", Segment("v", ARGON2_VERSION), Join(Segments(e), ','), Encode(e.salt), Encode(e.hash)]
  }

  /** $argon2id$v=19$m=...,t=...,p=...$salt$hash */
  function Print(e: Encoded): string {
    Join(Fields(e), '$')
  }

  // ---- parsing -------------------------------------------------------------------------------------------

  function ParseVersion(raw: string): Option<int> {
    var parts := Split(raw, '=');
    if |parts| != 2 || parts[0] != "v" then None else Atoi(parts[1])
  }

  /** The segments as a map from key to value; a repeated key keeps the last value. */
  function Values(segments: seq<string>): Option<map<string, string>> {
    if segments == [] then Some(map[])
    else
      var front := Values(segments[..|segments| - 1]);
      var kv := Split(segments[|segments| - 1], '=');
      if front.None? || |kv| != 2 then None else Some(front.value[TrimSpace(kv[0]) := TrimSpace(kv[1])])
  }

  function ValueOf(values: map<string, string>, key: string): string {
    if key in values then values[key] else ""
  }

  function ParamsOf(values: map<string, string>): Option<(nat, nat, nat)> {
    var memory := ParseUint(ValueOf(values, "m"), UINT32_LIMIT);
    var timeCost := ParseUint(ValueOf(values, "t"), UINT32_LIMIT);
    var parallel := ParseUint(ValueOf(values, "p"), UINT8_LIMIT);
    if memory.None? || timeCost.None? || parallel.None? then None
    else if memory.value == 0 || timeCost.value == 0 || parallel.value == 0 then None
    else Some((memory.value, timeCost.value, parallel.value))
  }

  function ParseParams(raw: string): Option<(nat, nat, nat)> {
    var segments := Split(raw, ',');
    if |segments| != 3 || Values(segments).None? then None else ParamsOf(Values(segments).value)
  }

  function Parse(encoded: string): Result<Encoded> {
    var parts := Split(encoded, '$');
    if |parts| != 6 || parts[0] != "" then Err(InvalidFormat)
    else if parts[1] != "argon2id" then Err(UnsupportedAlgorithm)
    else if ParseVersion(parts[2]).None? then Err(InvalidVersion)
    else if ParseVersion(parts[2]).value != ARGON2_VERSION then Err(UnsupportedVersion)
    else if ParseParams(parts[3]).None? then Err(InvalidParams)
    else if Decode(parts[4]).None? then Err(InvalidSalt)
    else if Decode(parts[4]).value == [] then Err(EmptySalt)
    else if Decode(parts[5]).None? then Err(InvalidHash)
    else if Decode(parts[5]).value == [] then Err(EmptyHash)
    else
      var (memoryKiB, timeCost, parallel) := ParseParams(parts[3]).value;
      Ok(Encoded(memoryKiB, timeCost, parallel, Decode(parts[4]).value, Decode(parts[5]).value))
  }

  /** The parameter field, segment by segment. */
  method ParseArgonParams(raw: string) returns (params: Option<(nat, nat, nat)>)
    ensures params == ParseParams(raw)
  {
    var segments := Split(raw, ',');
    if |segments| != 3 {
      return None;
    }
    var values: map<string, string> := map[];
    for n := 0 to |segments|
      invariant Values(segments[..n]) == Some(values)
    {
      assert segments[..n + 1][..n] == segments[..n];
      var kv := Split(segments[n], '=');
      if |kv| != 2 {
        NoValues(segments, n + 1);
        return None;
      }
      values := values[TrimSpace(kv[0]) := TrimSpace(kv[1])];
    }
    assert segments[..|segments|] == segments;
    params := ParamsOf(values);
  }

  /** A bad segment spoils the field, whatever follows. */
  lemma {:induction false} NoValues(segments: seq<string>, n: nat)
    requires n <= |segments| && Values(segments[..n]).None?
    ensures Values(segments).None?
    decreases |segments|
  {
    if n == |segments| {
      assert segments[..n] == segments;
    } else {
      var front := segments[..|segments| - 1];
      assert front[..n] == segments[..n];
      NoValues(front, n);
    }
  }

  // ---- the round trip --------------------------------------------------------------------------------------

  lemma SegmentSplits(key: string, n: nat)
    requires key in {"m", "t", "p", "v"}
    ensures Split(Segment(key, n), '=') == [key, PrintNat(n)]
    ensures TrimSpace(key) == key && TrimSpace(PrintNat(n)) == PrintNat(n)
  {
    assert '=' !in key && TrimSpace(key) == key;
    hide PrintNat, TrimSpace, Split, Join;
    DecimalOfPrint(n);
    PrintedIsTrimmed(n);
    DigitsAreNot(PrintNat(n), '=');
    JoinTwo(key, PrintNat(n), '=');
    SplitOfJoin([key, PrintNat(n)], '=');
  }

  lemma SegmentLacks(key: string, n: nat, x: char)
    requires key in {"m", "t", "p", "v"} && x in {'$', ','}
    ensures x !in Segment(key, n)
  {
    hide PrintNat;
    DecimalOfPrint(n);
    DigitsAreNot(PrintNat(n), x);
  }

  /** The three printed segments, in whatever order, give back the three numbers. */
  lemma ParamsInAnyOrder(e: Encoded, segments: seq<string>)
    requires WellFormed(e) && multiset(segments) == multiset(Segments(e))
    ensures ParseParams(Join(segments, ',')) == Some((e.memoryKiB, e.timeCost, e.parallel))
  {
    hide Segment, ParseUint, TrimSpace, Join, Split, WellFormed;
    assert |segments| == |multiset(segments)| == 3;
    SegmentSplits("m", e.memoryKiB);
    SegmentSplits("t", e.timeCost);
    SegmentSplits("p", e.parallel);
    SegmentLacks("m", e.memoryKiB, ',');
    SegmentLacks("t", e.timeCost, ',');
    SegmentLacks("p", e.parallel, ',');
    forall i | 0 <= i < 3 ensures segments[i] in Segments(e) {
      assert segments[i] in multiset(segments);
    }
    SplitOfJoin(segments, ',');
    ValuesAnyOrder(e, segments);
    ParsesThree(e);
  }

  lemma ParsesThree(e: Encoded)
    requires WellFormed(e)
    ensures ParseUint(PrintNat(e.memoryKiB), UINT32_LIMIT) == Some(e.memoryKiB)
    ensures ParseUint(PrintNat(e.timeCost), UINT32_LIMIT) == Some(e.timeCost)
    ensures ParseUint(PrintNat(e.parallel), UINT8_LIMIT) == Some(e.parallel)
    ensures e.memoryKiB != 0 && e.timeCost != 0 && e.parallel != 0
  {
    PrintedParses(e.memoryKiB, UINT32_LIMIT);
    PrintedParses(e.timeCost, UINT32_LIMIT);
    PrintedParses(e.parallel, UINT8_LIMIT);
  }

  lemma ValuesAnyOrder(e: Encoded, segments: seq<string>)
    requires |segments| == 3 && multiset(segments) == multiset(Segments(e))
    ensures Values(segments) == Some(map["m" := PrintNat(e.memoryKiB), "t" := PrintNat(e.timeCost), "p" := PrintNat(e.parallel)])
  {
    hide TrimSpace, Split, PrintNat, Values;
    var m, t, p := Segment("m", e.memoryKiB), Segment("t", e.timeCost), Segment("p", e.parallel);
    SegmentSplits("m", e.memoryKiB);
    SegmentSplits("t", e.timeCost);
    SegmentSplits("p", e.parallel);
    assert m[0] == 'm' && t[0] == 't' && p[0] == 'p';
    hide Segment;
    var a, b, c := segments[0], segments[1], segments[2];
    assert segments == [a, b, c];
    ThreeInSomeOrder(a, b, c, m, t, p);
    ThreeValues(a, b, c);
    AnyOrder("m", PrintNat(e.memoryKiB), "t", PrintNat(e.timeCost), "p", PrintNat(e.parallel));
  }

  lemma ThreeInSomeOrder(a: string, b: string, c: string, m: string, t: string, p: string)
    requires multiset([a, b, c]) == multiset([m, t, p]) && m != t && t != p && m != p
    ensures [a, b, c] in {[m, t, p], [m, p, t], [t, m, p], [t, p, m], [p, m, t], [p, t, m]}
  {
  }

  lemma AnyOrder(k1: string, v1: string, k2: string, v2: string, k3: string, v3: string)
    requires k1 != k2 && k2 != k3 && k1 != k3
    ensures var all := map[k1 := v1, k2 := v2, k3 := v3];
      && map[k1 := v1, k3 := v3, k2 := v2] == all && map[k2 := v2, k1 := v1, k3 := v3] == all
      && map[k2 := v2, k3 := v3, k1 := v1] == all && map[k3 := v3, k1 := v1, k2 := v2] == all
      && map[k3 := v3, k2 := v2, k1 := v1] == all
  {
  }

  lemma ThreeValues(a: string, b: string, c: string)
    requires |Split(a, '=')| == 2 && |Split(b, '=')| == 2 && |Split(c, '=')| == 2
    ensures Values([a, b, c]) == Some(map[
      TrimSpace(Split(a, '=')[0]) := TrimSpace(Split(a, '=')[1]),
      TrimSpace(Split(b, '=')[0]) := TrimSpace(Split(b, '=')[1]),
      TrimSpace(Split(c, '=')[0]) := TrimSpace(Split(c, '=')[1])])
  {
    hide Split, TrimSpace;
    assert [a, b, c][..2] == [a, b] && [a, b][..1] == [a] && [a][..0] == [];
    assert Values([a]) == Some(map[TrimSpace(Split(a, '=')[0]) := TrimSpace(Split(a, '=')[1])]);
  }

  lemma FieldsHaveNoDollar(e: Encoded)
    ensures forall i :: 0 <= i < 6 ==> '$' !in Fields(e)[i]
  {
    hide Segment, Encode, Join;
    SegmentLacks("v", ARGON2_VERSION, '$');
    SegmentLacks("m", e.memoryKiB, '$');
    SegmentLacks("t", e.timeCost, '$');
    SegmentLacks("p", e.parallel, '$');
    EncodedIsNot(e.salt, '$');
    EncodedIsNot(e.hash, '$');
    JoinLacks(Segments(e), ',', '$');
  }

  /** Parsing the printed form gives back exactly what was printed, for all parameters, salts and hashes that can be printed. */
  lemma ParseOfPrint(e: Encoded)
    requires WellFormed(e)
    ensures Parse(Print(e)) == Ok(e)
  {
    assert e.salt != [] && e.hash != [];
    hide Split, Join, Segment, ParseParams, ParseVersion, Decode, Encode, Segments, WellFormed;
    FieldsHaveNoDollar(e);
    SplitOfJoin(Fields(e), '$');
    VersionParses();
    ParamsInAnyOrder(e, Segments(e));
    Base64RoundTrip(e.salt);
    Base64RoundTrip(e.hash);
  }

  lemma VersionParses()
    ensures ParseVersion(Segment("v", ARGON2_VERSION)) == Some(ARGON2_VERSION)
  {
    SegmentSplits("v", ARGON2_VERSION);
    hide Segment, Split;
    DecimalOfPrint(ARGON2_VERSION);
    assert IsDigit(PrintNat(ARGON2_VERSION)[0]);
  }

  /** Whatever parses can be printed again, and then parses to the same. */
  lemma ParsedIsWellFormed(encoded: string)
    ensures Parse(encoded).Ok? ==> WellFormed(Parse(encoded).value) && Parse(Print(Parse(encoded).value)) == Parse(encoded)
  {
    if Parse(encoded).Ok? {
      var e := Parse(encoded).value;
      assert WellFormed(e) by {
        hide Split, Values, Decode;
      }
      ParseOfPrint(e);
    }
  }

  /** What is refused, and why: another number of fields, text before the first separator, another algorithm, another version. */
  lemma RefusedForms(fields: seq<string>)
    requires |fields| >= 1 && forall i :: 0 <= i < |fields| ==> '$' !in fields[i]
    ensures var parsed := Parse(Join(fields, '$'));
      if |fields| != 6 || fields[0] != "" then parsed == Err(InvalidFormat)
      else if fields[1] != "argon2id" then parsed == Err(UnsupportedAlgorithm)
      else forall n: nat :: n <= MAX_INT64 && n != 19 && fields[2] == "v=" + PrintNat(n) ==> parsed == Err(UnsupportedVersion)
  {
    SplitOfJoin(fields, '$');
    hide Split, Join, PrintNat, ParseParams, Decode, Atoi;
    if |fields| == 6 {
      forall n: nat | n <= MAX_INT64 && fields[2] == "v=" + PrintNat(n)
        ensures ParseVersion(fields[2]) == Some(n as int)
      {
        VersionReads(n);
      }
    }
  }

  lemma VersionReads(n: nat)
    requires n <= MAX_INT64
    ensures ParseVersion("v=" + PrintNat(n)) == Some(n as int)
  {
    SegmentSplits("v", n);
    assert Segment("v", n) == "v=" + PrintNat(n);
    DecimalOfPrint(n);
    hide Segment, Split, Decimal;
    assert IsDigit(PrintNat(n)[0]);
  }

  // ---- hashing and verifying -------------------------------------------------------------------------------

  /** The key derivation function: password, salt, time cost, memory, parallelism, key length. */
  type Kdf = (seq<Byte>, seq<Byte>, nat, nat, nat, nat) -> seq<Byte>

  ghost predicate KeepsLength(kdf: Kdf) {
    forall password, salt, timeCost, memoryKiB, parallel, keyLength ::
      |kdf(password, salt, timeCost, memoryKiB, parallel, keyLength)| == keyLength
  }

  /** The function is only ever called with positive costs. */
  function Derive(kdf: Kdf, pepper: seq<Byte>, password: seq<Byte>, e: Encoded, keyLength: nat): seq<Byte>
    requires e.timeCost > 0 && e.parallel > 0
  {
    kdf(password + pepper, e.salt, e.timeCost, e.memoryKiB, e.parallel, keyLength)
  }

  function HashString(kdf: Kdf, pepper: seq<Byte>, password: seq<Byte>, salt: seq<Byte>): string {
    var e := Encoded(DEFAULT_MEMORY_KIB, DEFAULT_TIME_COST, DEFAULT_PARALLEL, salt, []);
    Print(e.(hash := Derive(kdf, pepper, password, e, DEFAULT_KEY_LENGTH)))
  }

  function VerifyString(kdf: Kdf, pepper: seq<Byte>, password: seq<Byte>, encoded: string): Result<bool> {
    match Parse(encoded)
    case Err(error) => Err(error)
    case Ok(e) =>
      ParsedIsWellFormed(encoded);
      Ok(Derive(kdf, pepper, password, e, |e.hash| % UINT32_LIMIT) == e.hash)
  }

  /** A password is accepted against a stored string exactly when the function gives one key for it and for the one stored, each followed
    * by its pepper, at the default costs. */
  lemma VerifyOfHash(
    kdf: Kdf, pepper: seq<Byte>, password: seq<Byte>, storedPepper: seq<Byte>, stored: seq<Byte>, salt: seq<Byte>)
    requires KeepsLength(kdf) && |salt| == 16
    ensures VerifyString(kdf, pepper, password, HashString(kdf, storedPepper, stored, salt))
      == Ok(kdf(password + pepper, salt, 3, 65536, 2, 32) == kdf(stored + storedPepper, salt, 3, 65536, 2, 32))
  {
    hide Print, Parse;
    var e := Encoded(DEFAULT_MEMORY_KIB, DEFAULT_TIME_COST, DEFAULT_PARALLEL, salt, []);
    var full := e.(hash := Derive(kdf, storedPepper, stored, e, DEFAULT_KEY_LENGTH));
    assert |full.hash| == DEFAULT_KEY_LENGTH;
    ParseOfPrint(full);
  }

  /** Against any string that parses, at the costs and the key length it says, which is cut down to 32 bits. */
  lemma VerifyOfParsed(kdf: Kdf, pepper: seq<Byte>, password: seq<Byte>, encoded: string, e: Encoded)
    requires Parse(encoded) == Ok(e)
    ensures e.timeCost > 0 && e.parallel > 0
    ensures VerifyString(kdf, pepper, password, encoded)
      == Ok(kdf(password + pepper, e.salt, e.timeCost, e.memoryKiB, e.parallel, |e.hash| % 0x1_0000_0000) == e.hash)
  {
    ParsedIsWellFormed(encoded);
    hide Parse;
  }

  /** So the right password always verifies. */
  lemma OwnPasswordVerifies(kdf: Kdf, pepper: seq<Byte>, password: seq<Byte>, salt: seq<Byte>)
    requires KeepsLength(kdf) && |salt| == 16
    ensures VerifyString(kdf, pepper, password, HashString(kdf, pepper, password, salt)) == Ok(true)
  {
    VerifyOfHash(kdf, pepper, password, pepper, password, salt);
  }

  /** The function tells any two secrets apart. */
  ghost predicate TellsApart(kdf: Kdf) {
    forall a, b, salt, timeCost, memoryKiB, parallel, keyLength ::
      kdf(a, salt, timeCost, memoryKiB, parallel, keyLength) == kdf(b, salt, timeCost, memoryKiB, parallel, keyLength) ==> a == b
  }

  /** With such a function only the stored password verifies, and only with the pepper it was stored with, among peppers of one length. */
  lemma OnlyOwnPasswordVerifies(
    kdf: Kdf, pepper: seq<Byte>, password: seq<Byte>, storedPepper: seq<Byte>, stored: seq<Byte>, salt: seq<Byte>)
    requires KeepsLength(kdf) && TellsApart(kdf) && |salt| == 16 && |pepper| == |storedPepper|
    ensures VerifyString(kdf, pepper, password, HashString(kdf, storedPepper, stored, salt))
      == Ok(password == stored && pepper == storedPepper)
  {
    hide VerifyString, HashString;
    VerifyOfHash(kdf, pepper, password, storedPepper, stored, salt);
    var given, expected := password + pepper, stored + storedPepper;
    if given == expected {
      assert |password| == |stored|;
      assert given[..|password|] == password && given[|password|..] == pepper;
      assert expected[..|stored|] == stored && expected[|stored|..] == storedPepper;
    }
  }

  /** Nothing marks where the password ends and the pepper begins: moving a byte from one to the other makes no difference. */
  lemma BoundaryIsInvisible(kdf: Kdf, pepper: seq<Byte>, password: seq<Byte>, b: Byte, salt: seq<Byte>)
    requires KeepsLength(kdf) && |salt| == 16
    ensures VerifyString(kdf, [b] + pepper, password, HashString(kdf, pepper, password + [b], salt)) == Ok(true)
  {
    hide VerifyString, HashString;
    VerifyOfHash(kdf, [b] + pepper, password, pepper, password + [b], salt);
    assert password + ([b] + pepper) == password + [b] + pepper;
  }

  /** The stored form, field by field. */
  lemma StoredForm(kdf: Kdf, pepper: seq<Byte>, password: seq<Byte>, salt: seq<Byte>)
    ensures HashString(kdf, pepper, password, salt)
      == "$argon2id$v=19$m=65536,t=3,p=2$" + Encode(salt) + "$" + Encode(kdf(password + pepper, salt, 3, 65536, 2, 32))
  {
    var hash := kdf(password + pepper, salt, 3, 65536, 2, 32);
    PrintedForm(Encoded(65536, 3, 2, salt, hash));
    hide Print;
  }

  lemma PrintedForm(e: Encoded)
    requires e.memoryKiB == 65536 && e.timeCost == 3 && e.parallel == 2
    ensures Print(e) == "$argon2id$v=19$m=65536,t=3,p=2$" + Encode(e.salt) + "$" + Encode(e.hash)
  {
    DefaultFields(e);
    JoinSix("", "argon2id", "v=19", "m=65536,t=3,p=2", Encode(e.salt), Encode(e.hash));
    HeadPrinted();
    hide *;
    var head := "" + "$" + "argon2id" + "$" + "v=19" + "$" + "m=65536,t=3,p=2" + "$";
    assert head + Encode(e.salt) + "$" + Encode(e.hash) == "$argon2id$v=19$m=65536,t=3,p=2$" + Encode(e.salt) + "$" + Encode(e.hash);
  }

  lemma HeadPrinted()
    ensures "" + "$" + "argon2id" + "$" + "v=19" + "$" + "m=65536,t=3,p=2" + "$" == "$argon2id$v=19$m=65536,t=3,p=2$"
  {
    assert "" + "$" + "argon2id" + "$" == "$argon2id$";
    assert "$argon2id$" + "v=19" + "$" == "$argon2id$v=19$";
  }

  lemma DefaultFields(e: Encoded)
    requires e.memoryKiB == 65536 && e.timeCost == 3 && e.parallel == 2
    ensures Fields(e) == ["", "argon2id", "v=19", "m=65536,t=3,p=2", Encode(e.salt), Encode(e.hash)]
  {
    DefaultsPrinted();
    ParamsPrinted(e);
    hide PrintNat, Encode, Join, Segments;
    assert "v" + "=" + "19" == "v=19";
  }

  lemma DefaultsPrinted()
    ensures PrintNat(19) == "19" && PrintNat(65536) == "65536" && PrintNat(3) == "3" && PrintNat(2) == "2"
  {
    assert PrintNat(6) == "6" && PrintNat(65) == "65" && PrintNat(655) == "655" && PrintNat(6553) == "6553";
  }

  lemma ParamsPrinted(e: Encoded)
    requires e.memoryKiB == 65536 && e.timeCost == 3 && e.parallel == 2
    ensures Join(Segments(e), ',') == "m=65536,t=3,p=2"
  {
    DefaultsPrinted();
    hide PrintNat;
    assert "m" + "=" + "65536" == "m=65536" && "t" + "=" + "3" == "t=3" && "p" + "=" + "2" == "p=2";
    assert Segments(e) == ["m=65536", "t=3", "p=2"];
    JoinNext("t=3", ["p=2"], ',');
    JoinNext("m=65536", ["t=3", "p=2"], ',');
    assert Join(["p=2"], ',') == "p=2";
  }

  lemma JoinNext(a: string, rest: seq<string>, c: char)
    requires rest != []
    ensures Join([a] + rest, c) == a + [c] + Join(rest, c)
  {
    assert ([a] + rest)[1..] == rest;
  }

  lemma JoinThree(a: string, b: string, c: string)
    ensures Join([a, b, c], '$') == a + "$" + b + "$" + c
  {
    JoinNext(b, [c], '$');
    JoinNext(a, [b, c], '$');
    assert [a] + [b, c] == [a, b, c];
  }

  lemma JoinSix(a: string, b: string, c: string, d: string, e: string, f: string)
    ensures Join([a, b, c, d, e, f], '$') == a + "$" + b + "$" + c + "$" + d + "$" + e + "$" + f
  {
    JoinThree(d, e, f);
    hide Join;
    JoinNext(c, [d, e, f], '$');
    JoinNext(b, [c, d, e, f], '$');
    JoinNext(a, [b, c, d, e, f], '$');
    assert [a] + [b, c, d, e, f] == [a, b, c, d, e, f] && [b] + [c, d, e, f] == [b, c, d, e, f] && [c] + [d, e, f] == [c, d, e, f];
    var tail := d + "$" + e + "$" + f;
    assert a + ['$'] + (b + ['$'] + (c + ['$'] + tail)) == a + "$" + b + "$" + c + "$" + tail;
    assert a + "$" + b + "$" + c + "$" + tail == a + "$" + b + "$" + c + "$" + d + "$" + e + "$" + f;
  }

  class Hasher {
    const pepper: seq<Byte>

    constructor (pepper: seq<Byte>)
      ensures this.pepper == pepper
    {
      this.pepper := pepper;
    }

    /** Refuses a short pepper, and copies the caller's buffer. */
    static method New(pepper: array<Byte>) returns (hasher: Hasher?)
      ensures hasher == null <==> pepper.Length < MIN_PEPPER_LENGTH
      ensures hasher != null ==> fresh(hasher) && hasher.pepper == pepper[..]
    {
      if pepper.Length < MIN_PEPPER_LENGTH {
        return null;
      }
      hasher := new Hasher(pepper[..]);
    }

    /** The salt is drawn at random. */
    method Hash(kdf: Kdf, password: seq<Byte>, salt: seq<Byte>) returns (encoded: string)
      requires |salt| == DEFAULT_SALT_LENGTH
      ensures encoded == HashString(kdf, pepper, password, salt)
      ensures KeepsLength(kdf) ==> VerifyString(kdf, pepper, password, encoded) == Ok(true)
    {
      if KeepsLength(kdf) {
        OwnPasswordVerifies(kdf, pepper, password, salt);
      }
      var parameters := Encoded(DEFAULT_MEMORY_KIB, DEFAULT_TIME_COST, DEFAULT_PARALLEL, salt, []);
      var derived := Derive(kdf, pepper, password, parameters, DEFAULT_KEY_LENGTH);
      encoded := Print(parameters.(hash := derived));
    }

    method Verify(kdf: Kdf, password: seq<Byte>, encoded: string) returns (result: Result<bool>)
      ensures result == VerifyString(kdf, pepper, password, encoded)
    {
      var parsed := Parse(encoded);
      if parsed.Err? {
        return Err(parsed.error);
      }
      ParsedIsWellFormed(encoded);
      var e := parsed.value;
      var derived := Derive(kdf, pepper, password, e, |e.hash| % UINT32_LIMIT);
      result := Ok(derived == e.hash);
    }
  }
}
