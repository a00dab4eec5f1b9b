/**
  Versioned schema IDs and their registry, after internal/agentmail/schema.go.
  An ID has the form namespace.name.vN; a version number is a 64-bit int.
  */
module SchemaId {
  import opened Strings
  import Collections

  datatype Error =
    | EmptyID
    | TooFewParts
    | BadVersion
    | BadVersionNumber
    | ZeroVersion
    | AlreadyRegistered
    | NoCompatibleVersion

  datatype Result<+T> = Ok(value: T) | Err(error: Error)

  datatype Parts = Parts(namespace: string, name: string, version: int)

  // ----- Parsing -----

  function Parsed(id: string): Result<Parts> {
    var parts := Split(id, '.');
    if id == "" then Err(EmptyID)
    else if |parts| < 3 then Err(TooFewParts)
    else
      var version := parts[|parts| - 1];
      if |version| < 2 || version[0] != 'v' then Err(BadVersion)
      else if !AllDigits(version[1..]) then Err(BadVersionNumber)
      else
        var n := WrapInt(DigitsValue(version[1..]));
        if n == 0 then Err(ZeroVersion)
        else Ok(Parts(parts[0], Join(parts[1..|parts| - 1], '.'), n))
  }

  function SchemaKey(namespace: string, name: string): string { namespace + "." + name }

  function Written(namespace: string, name: string, digits: string): string {
    SchemaKey(namespace, name) + ".v" + digits
  }

  lemma WrapAdd(n: int, k: int)
    ensures WrapInt(n + 0x1_0000_0000_0000_0000 * k) == WrapInt(n)
  {
  }

  /** Wrapping around early makes no difference to the version in the end. */
  lemma WrapStep(n: int, d: int)
    ensures WrapInt(WrapInt(WrapInt(n) * 10) + d) == WrapInt(n * 10 + d)
  {
    WrapIsCongruent(n);
    WrapIsCongruent(WrapInt(n) * 10);
    var i := (WrapInt(n) - n) / 0x1_0000_0000_0000_0000;
    var j := (WrapInt(WrapInt(n) * 10) - WrapInt(n) * 10) / 0x1_0000_0000_0000_0000;
    WrapAdd(n * 10 + d, 10 * i + j);
  }

  lemma WrapIsCongruent(n: int)
    ensures WrapInt(n) == n + 0x1_0000_0000_0000_0000 * ((WrapInt(n) - n) / 0x1_0000_0000_0000_0000)
  {
  }

  /** Splits the ID, then reads its version digit by digit. */
  method ParseSchemaID(id: string) returns (r: Result<Parts>)
    ensures r == Parsed(id)
  {
    if id == "" {
      return Err(EmptyID);
    }
    var parts := Split(id, '.');
    if |parts| < 3 {
      return Err(TooFewParts);
    }
    var version := parts[|parts| - 1];
    if |version| < 2 || version[0] != 'v' {
      return Err(BadVersion);
    }
    var digits := version[1..];
    var v := 0;
    for i := 0 to |digits|
      invariant AllDigits(digits[..i]) && v == WrapInt(DigitsValue(digits[..i]))
    {
      if !IsDigit(digits[i]) {
        assert digits[i] in digits;
        return Err(BadVersionNumber);
      }
      assert digits[..i + 1] == digits[..i] + [digits[i]] && digits[..i + 1][..i] == digits[..i];
      WrapStep(DigitsValue(digits[..i]), digits[i] as int - '0' as int);
      v := WrapInt(WrapInt(v * 10) + (digits[i] as int - '0' as int));
    }
    assert digits[..|digits|] == digits;
    if v == 0 {
      return Err(ZeroVersion);
    }
    return Ok(Parts(parts[0], Join(parts[1..|parts| - 1], '.'), v));
  }

  lemma {:induction false} SplitLast(s: string, last: string, sep: char)
    requires sep !in last
    ensures Split(s + [sep] + last, sep) == Split(s, sep) + [last]
  {
    var all := s + [sep] + last;
    if s == [] {
      SplitPlain(last, sep);
      assert all[1..] == last;
    } else {
      assert all[1..] == s[1..] + [sep] + last;
      SplitLast(s[1..], last, sep);
    }
  }

  lemma {:induction false} JoinLast(parts: seq<string>, last: string, sep: char)
    requires parts != []
    ensures Join(parts + [last], sep) == Join(parts, sep) + [sep] + last
  {
    if |parts| == 1 {
      assert (parts + [last])[1..] == [last];
    } else {
      assert (parts + [last])[1..] == parts[1..] + [last];
      JoinLast(parts[1..], last, sep);
      Collections.ConcatAssociates(parts[0] + [sep], Join(parts[1..], sep), [sep] + last);
    }
  }

  /** The three parts of an ID that has enough dots. */
  lemma PartsOfSplit(id: string)
    requires |Split(id, '.')| >= 3
    ensures var parts := Split(id, '.');
            && '.' !in parts[0]
            && id == SchemaKey(parts[0], Join(parts[1..|parts| - 1], '.')) + "." + parts[|parts| - 1]
  {
    var parts := Split(id, '.');
    var inner, last := parts[1..|parts| - 1], parts[|parts| - 1];
    JoinOfSplit(id, '.');
    SplitHasNoSep(id, '.');
    assert parts[0] in parts;
    hide Split;
    JoinInParts(parts[0], inner, last);
    assert parts == [parts[0]] + inner + [last];
  }

  lemma JoinInParts(first: string, inner: seq<string>, last: string)
    requires inner != []
    ensures Join([first] + inner + [last], '.') == SchemaKey(first, Join(inner, '.')) + "." + last
  {
    var parts := [first] + inner + [last];
    assert parts[1..] == inner + [last];
    JoinLast(inner, last, '.');
    Collections.ConcatAssociates(first + ['.'], Join(inner, '.'), ['.'] + last);
  }

  lemma SplitOfWritten(namespace: string, name: string, digits: string)
    requires '.' !in namespace && AllDigits(digits)
    ensures Split(Written(namespace, name, digits), '.') == [namespace] + Split(name, '.') + ["v" + digits]
  {
    var version := "v" + digits;
    assert '.' !in digits;
    assert Written(namespace, name, digits) == namespace + ['.'] + (name + ['.'] + version);
    SplitFirst(namespace, name + ['.'] + version, '.');
    SplitLast(name, version, '.');
  }

  /** Exactly which IDs parse, and to what. */
  lemma ParsedIff(id: string, namespace: string, name: string, version: int)
    ensures Parsed(id) == Ok(Parts(namespace, name, version))
            <==> && '.' !in namespace && version != 0
                 && exists digits :: digits != "" && AllDigits(digits) && WrapInt(DigitsValue(digits)) == version
                                     && id == Written(namespace, name, digits)
  {
    if Parsed(id) == Ok(Parts(namespace, name, version)) {
      PartsOfSplit(id);
      var parts := Split(id, '.');
      var last := parts[|parts| - 1];
      hide Split, Join, DigitsValue;
      assert last == "v" + last[1..];
      assert id == Written(namespace, name, last[1..]);
    }
    if '.' !in namespace && version != 0 {
      forall digits | digits != "" && AllDigits(digits) && WrapInt(DigitsValue(digits)) == version
                      && id == Written(namespace, name, digits)
        ensures Parsed(id) == Ok(Parts(namespace, name, version))
      {
        WrittenParses(namespace, name, digits);
      }
    }
  }

  lemma WrittenParses(namespace: string, name: string, digits: string)
    requires '.' !in namespace && digits != "" && AllDigits(digits)
    ensures Parsed(Written(namespace, name, digits))
            == var n := WrapInt(DigitsValue(digits));
               if n == 0 then Err(ZeroVersion) else Ok(Parts(namespace, name, n))
  {
    SplitOfWritten(namespace, name, digits);
    JoinOfSplit(name, '.');
    hide Split, Join, DigitsValue;
    var parts := [namespace] + Split(name, '.') + ["v" + digits];
    assert parts[1..|parts| - 1] == Split(name, '.');
    assert ("v" + digits)[1..] == digits;
  }

  /** An ID written with a version in range parses to what it was written from. */
  lemma RoundTrip(namespace: string, name: string, version: nat)
    requires '.' !in namespace && 1 <= version <= MAX_INT
    ensures Parsed(Written(namespace, name, Itoa(version))) == Ok(Parts(namespace, name, version))
  {
    DigitsOfItoa(version);
    WrittenParses(namespace, name, Itoa(version));
  }

  /** Version numbers out of range wrap around, so that some IDs have a negative version. */
  lemma LargeVersionWraps(namespace: string, name: string)
    requires '.' !in namespace
    ensures Parsed(Written(namespace, name, Itoa(MAX_INT + 1))) == Ok(Parts(namespace, name, MIN_INT))
  {
    DigitsOfItoa(MAX_INT + 1);
    WrittenParses(namespace, name, Itoa(MAX_INT + 1));
  }

  lemma KeysAreInjective(namespace: string, name: string, namespace': string, name': string)
    requires '.' !in namespace && '.' !in namespace'
    requires SchemaKey(namespace, name) == SchemaKey(namespace', name')
    ensures namespace == namespace' && name == name'
  {
    SplitFirst(namespace, name, '.');
    SplitFirst(namespace', name', '.');
    var key := SchemaKey(namespace, name);
    assert Split(key, '.')[0] == namespace && Split(key, '.')[0] == namespace';
    assert key[|namespace| + 1..] == name && key[|namespace'| + 1..] == name';
  }

  /** The key of an ID that parses. */
  function KeyOf(id: string): string
    requires Parsed(id).Ok?
  {
    SchemaKey(Parsed(id).value.namespace, Parsed(id).value.name)
  }

  /** IDs that parse share the key exactly when they share namespace and name. */
  lemma SameKeyIff(a: string, b: string)
    requires Parsed(a).Ok? && Parsed(b).Ok?
    ensures KeyOf(a) == KeyOf(b)
            <==> Parsed(a).value.namespace == Parsed(b).value.namespace && Parsed(a).value.name == Parsed(b).value.name
  {
    var p, q := Parsed(a).value, Parsed(b).value;
    PartsOfSplit(a);
    PartsOfSplit(b);
    if KeyOf(a) == KeyOf(b) {
      KeysAreInjective(p.namespace, p.name, q.namespace, q.name);
    }
  }

  // ----- Negotiation -----

  /** The version `id` offers of the schema with this key, if it offers one. */
  predicate Offers(id: string, key: string, version: int) {
    Parsed(id).Ok? && KeyOf(id) == key && Parsed(id).value.version == version
  }

  predicate Compatible(id: string, key: string) { Parsed(id).Ok? && KeyOf(id) == key }

  /**
    What a negotiation promises.  It fails without a compatible ID.  Otherwise it
    chooses a supported ID with the requested version if there is one, and else one
    with the greatest version -- unless all compatible versions are negative.
    */
  ghost predicate IsBest(key: string, version: int, supported: seq<string>, r: Result<string>) {
    if forall id :: id in supported ==> !Compatible(id, key) then r == Err(NoCompatibleVersion)
    else if exists id :: id in supported && Offers(id, key, version) then
      r.Ok? && r.value in supported && Offers(r.value, key, version)
    else if forall id :: id in supported && Compatible(id, key) ==> Parsed(id).value.version <= 0 then r == Ok("")
    else
      && r.Ok? && r.value in supported && Compatible(r.value, key)
      && forall id :: id in supported && Compatible(id, key) ==>
           Parsed(id).value.version <= Parsed(r.value).value.version
  }

  /** Each compatible version, with the last supported ID that offers it. */
  ghost predicate Collected(versions: map<int, string>, key: string, supported: seq<string>) {
    && (forall v :: v in versions ==> versions[v] in supported && Offers(versions[v], key, v))
    && (forall id :: id in supported && Compatible(id, key) ==> Parsed(id).value.version in versions)
  }

  lemma NoneCollected(key: string)
    ensures Collected(map[], key, [])
  {
  }

  lemma CollectOne(versions: map<int, string>, key: string, supported: seq<string>, id: string)
    requires Collected(versions, key, supported)
    ensures Compatible(id, key) ==> Collected(versions[Parsed(id).value.version := id], key, supported + [id])
    ensures !Compatible(id, key) ==> Collected(versions, key, supported + [id])
  {
    hide Parsed, KeyOf;
  }

  lemma RequestedIsBest(versions: map<int, string>, key: string, version: int, supported: seq<string>)
    requires Collected(versions, key, supported) && version in versions
    ensures IsBest(key, version, supported, Ok(versions[version]))
  {
    hide Parsed, KeyOf;
    assert Offers(versions[version], key, version) && Compatible(versions[version], key);
  }

  lemma NothingCompatible(versions: map<int, string>, key: string, version: int, supported: seq<string>)
    requires Collected(versions, key, supported) && versions == map[]
    ensures IsBest(key, version, supported, Err(NoCompatibleVersion))
  {
  }

  lemma GreatestIsBest(versions: map<int, string>, key: string, version: int, supported: seq<string>, best: int)
    requires Collected(versions, key, supported) && versions != map[] && version !in versions
    requires (best == 0 || best in versions) && best >= 0 && forall v :: v in versions ==> v <= best
    ensures IsBest(key, version, supported, Ok(if best == 0 then "" else versions[best]))
  {
    hide Parsed, KeyOf;
    var v := Collections.Pick(versions.Keys);
    assert Compatible(versions[v], key);
    if best != 0 {
      assert Offers(versions[best], key, best);
    }
  }

  method Negotiate(requested: string, supported: seq<string>) returns (r: Result<string>)
    ensures Parsed(requested).Err? ==> r == Err(Parsed(requested).error)
    ensures Parsed(requested).Ok? ==> IsBest(KeyOf(requested), Parsed(requested).value.version, supported, r)
  {
    var want := ParseSchemaID(requested);
    if want.Err? {
      return Err(want.error);
    }
    var key := SchemaKey(want.value.namespace, want.value.name);
    hide Parsed, Collected, IsBest;
    var versions := map[];
    NoneCollected(key);
    for i := 0 to |supported|
      invariant Collected(versions, key, supported[..i])
    {
      var p := ParseSchemaID(supported[i]);
      assert supported[..i + 1] == supported[..i] + [supported[i]];
      CollectOne(versions, key, supported[..i], supported[i]);
      if p.Ok? && SchemaKey(p.value.namespace, p.value.name) == key {
        versions := versions[p.value.version := supported[i]];
      }
    }
    assert supported[..|supported|] == supported;
    if want.value.version in versions {
      RequestedIsBest(versions, key, want.value.version, supported);
      return Ok(versions[want.value.version]);
    }
    if |versions| == 0 {
      NothingCompatible(versions, key, want.value.version, supported);
      return Err(NoCompatibleVersion);
    }
    var best := Greatest(versions);
    GreatestIsBest(versions, key, want.value.version, supported, best);
    return Ok(if best == 0 then "" else versions[best]);
  }

  /** The greatest positive version or 0, in whatever order the map gives them. */
  method Greatest<V>(versions: map<int, V>) returns (best: int)
    ensures best == 0 || best in versions
    ensures best >= 0 && forall v :: v in versions ==> v <= best
  {
    best := 0;
    var todo := versions.Keys;
    while todo != {}
      invariant todo <= versions.Keys
      invariant best == 0 || best in versions
      invariant best >= 0 && forall v :: v in versions && v !in todo ==> v <= best
      decreases |todo|
    {
      ghost var some := Collections.Pick(todo);
      var v :| v in todo;
      todo := todo - {v};
      if v > best {
        best := v;
      }
    }
  }

  /**
    A negotiation succeeds exactly when a compatible ID is supported, and then names
    one exactly when the requested version is offered or some compatible version is
    positive.  Version numbers in range are positive, so that it then always does.
    */
  lemma NamedIff(key: string, version: int, supported: seq<string>, r: Result<string>)
    requires IsBest(key, version, supported, r)
    ensures r.Ok? <==> exists id :: id in supported && Compatible(id, key)
    ensures r.Ok? ==>
              (r.value in supported && Compatible(r.value, key)
               <==> || (exists id :: id in supported && Offers(id, key, version))
                    || (exists id :: id in supported && Compatible(id, key) && Parsed(id).value.version > 0))
    ensures r.Ok? && !(r.value in supported && Compatible(r.value, key)) ==> r.value == ""
  {
    assert Parsed("").Err?;
    hide Parsed, KeyOf;
    assert forall id :: id in supported && Offers(id, key, version) ==> Compatible(id, key);
  }

  /** Version numbers out of range can make it succeed with no ID at all. */
  lemma NothingNamed(r: Result<string>)
    requires IsBest("a.b", 1, [Written("a", "b", Itoa(MAX_INT + 1))], r)
    ensures r == Ok("")
  {
    LargeVersionWraps("a", "b");
    var id := Written("a", "b", Itoa(MAX_INT + 1));
    assert id in [id] && KeyOf(id) == "a.b";
  }

  // ----- The registry -----

  /** A schema as registered; the parts of its ID are filled in by the registration. */
  datatype Schema = Schema(id: string, parts: Parts, fields: map<string, string>)

  type Registered = map<string, map<int, Schema>>

  ghost predicate WellKeyed(schemas: Registered) {
    forall key, v :: key in schemas && v in schemas[key] ==>
      var s := schemas[key][v];
      Parsed(s.id) == Ok(s.parts) && SchemaKey(s.parts.namespace, s.parts.name) == key && s.parts.version == v
  }

  /** The schema registered under the parts of an ID. */
  function Lookup(schemas: Registered, id: string): Option<Schema> {
    var p := Parsed(id);
    if p.Err? then None
    else
      var key := KeyOf(id);
      if key in schemas && p.value.version in schemas[key] then Some(schemas[key][p.value.version]) else None
  }

  /** What is found under an ID has that namespace, name and version, and nothing else. */
  lemma LookupIsRight(schemas: Registered, id: string)
    requires WellKeyed(schemas) && Lookup(schemas, id).Some?
    ensures Parsed(id) == Parsed(Lookup(schemas, id).value.id) == Ok(Lookup(schemas, id).value.parts)
  {
    SameKeyIff(id, Lookup(schemas, id).value.id);
  }

  function WithSchema(schemas: Registered, schema: Schema): Registered
    requires Parsed(schema.id).Ok?
  {
    var key := KeyOf(schema.id);
    var versions := if key in schemas then schemas[key] else map[];
    schemas[key := versions[Parsed(schema.id).value.version := schema.(parts := Parsed(schema.id).value)]]
  }

  /** A registration is found under every ID with the same parts, and changes no other lookup. */
  lemma LookupAfterRegister(schemas: Registered, schema: Schema, id: string)
    requires WellKeyed(schemas) && Parsed(schema.id).Ok?
    ensures WellKeyed(WithSchema(schemas, schema))
    ensures Lookup(WithSchema(schemas, schema), id)
            == if Parsed(id) == Parsed(schema.id) then Some(schema.(parts := Parsed(schema.id).value))
               else Lookup(schemas, id)
  {
    if Parsed(id).Ok? {
      SameKeyIff(id, schema.id);
    }
    hide Parsed, SchemaKey;
  }

  class SchemaRegistry {
    var schemas: Registered

    constructor ()
      ensures schemas == map[] && WellKeyed(schemas)
    {
      schemas := map[];
    }

    /** Fails exactly when the ID does not parse or its parts are taken; then nothing changes. */
    method Register(schema: Schema) returns (r: Result<Schema>)
      requires WellKeyed(schemas)
      modifies this
      ensures WellKeyed(schemas)
      ensures Parsed(schema.id).Err? ==> r == Err(Parsed(schema.id).error) && schemas == old(schemas)
      ensures Parsed(schema.id).Ok? && Lookup(old(schemas), schema.id).Some? ==>
                r == Err(AlreadyRegistered) && schemas == old(schemas)
      ensures Parsed(schema.id).Ok? && Lookup(old(schemas), schema.id).None? ==>
                r == Ok(schema.(parts := Parsed(schema.id).value)) && schemas == WithSchema(old(schemas), schema)
    {
      var p := ParseSchemaID(schema.id);
      if p.Err? {
        return Err(p.error);
      }
      LookupAfterRegister(schemas, schema, schema.id);
      hide Parsed, WellKeyed;
      var key := SchemaKey(p.value.namespace, p.value.name);
      var versions := if key in schemas then schemas[key] else map[];
      if p.value.version in versions {
        return Err(AlreadyRegistered);
      }
      var filled := schema.(parts := p.value);
      schemas := schemas[key := versions[p.value.version := filled]];
      return Ok(filled);
    }

    method Get(id: string) returns (r: Option<Schema>)
      ensures r == Lookup(schemas, id)
    {
      var p := ParseSchemaID(id);
      if p.Err? {
        return None;
      }
      var key := SchemaKey(p.value.namespace, p.value.name);
      if key !in schemas || p.value.version !in schemas[key] {
        return None;
      }
      return Some(schemas[key][p.value.version]);
    }

    /** The greatest version of a schema; nothing when no version is positive. */
    method Latest(namespace: string, name: string) returns (r: Option<Schema>)
      requires WellKeyed(schemas)
      ensures var key := SchemaKey(namespace, name);
              && (r.Some? <==> key in schemas && exists v :: v in schemas[key] && v > 0)
              && (r.Some? ==>
                   && SchemaKey(r.value.parts.namespace, r.value.parts.name) == key
                   && Lookup(schemas, r.value.id) == r
                   && forall v :: v in schemas[key] ==> v <= r.value.parts.version)
    {
      var key := SchemaKey(namespace, name);
      if key !in schemas {
        return None;
      }
      var best := Greatest(schemas[key]);
      return if best == 0 then None else Some(schemas[key][best]);
    }
  }
}
