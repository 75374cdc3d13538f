/** Edits of the ClusterManager resource for the gRPC conductor
    (controllers/toggle_components.go): nested maps changed in place. */
module ClusterManagerSpec {
  import opened Names

  datatype Value =
    | Null
    | Text(text: string)
    | Number(number: int)
    | Flag(flag: bool)
    | Items(items: seq<Value>)
    | Fields(fields: Record)

  type Record = map<string, Value>

  const SPEC := "spec"
  const REGISTRATION := "registrationConfiguration"
  const DRIVERS := "registrationDrivers"
  const SERVER := "serverConfiguration"
  const AUTH := "authType"

  const EXPECTED_DRIVERS: seq<Value> := [Fields(map[AUTH := Text("csr")]), Fields(map[AUTH := Text("grpc")])]

  /** A field; None when it is missing or its holder is not a map. */
  function Get(v: Option<Value>, key: string): Option<Value> {
    if v.Some? && v.value.Fields? && key in v.value.fields then Some(v.value.fields[key]) else None
  }

  function At(v: Value, a: string, b: string, c: string): Option<Value> {
    Get(Get(Get(Some(v), a), b), c)
  }

  function ItemsAt(v: Value, a: string, b: string, c: string): seq<Value> {
    var r := At(v, a, b, c);
    if r.Some? && r.value.Items? then r.value.items else []
  }

  function TextAt(v: Value, a: string, b: string, c: string): string {
    var r := At(v, a, b, c);
    if r.Some? && r.value.Text? then r.value.text else ""
  }

  // -------------------------------------------------------------------- driversMatch

  /** Authentication type of a driver; None for an entry that is not a map. */
  function AuthOf(driver: Value): Option<Value> {
    if !driver.Fields? then None
    else Some(if AUTH in driver.fields then driver.fields[AUTH] else Null)
  }

  function Auths(drivers: seq<Value>): seq<Option<Value>> {
    seq(|drivers|, i requires 0 <= i < |drivers| => AuthOf(drivers[i]))
  }

  predicate AllMaps(drivers: seq<Value>) {
    forall i | 0 <= i < |drivers| :: drivers[i].Fields?
  }

  /** Same length, and every expected authentication type occurs. */
  predicate Covers(actual: seq<Value>, expected: seq<Value>) {
    && |actual| == |expected|
    && AllMaps(expected)
    && forall i | 0 <= i < |expected| :: AuthOf(expected[i]) in Auths(actual)
  }

  predicate NoRepeats<T(==)>(s: seq<T>) {
    forall i, j | 0 <= i < j < |s| :: s[i] != s[j]
  }

  method DriversMatch(actual: seq<Value>, expected: seq<Value>) returns (same: bool)
    ensures same == Covers(actual, expected)
    ensures NoRepeats(Auths(expected)) ==>
              (same <==> AllMaps(expected) && multiset(Auths(actual)) == multiset(Auths(expected)))
  {
    same := DriversCover(actual, expected);
    if NoRepeats(Auths(expected)) { CoversIffPermutation(actual, expected); }
  }

  method DriversCover(actual: seq<Value>, expected: seq<Value>) returns (covers: bool)
    ensures covers == Covers(actual, expected)
  {
    if |actual| != |expected| { return false; }
    for i := 0 to |expected|
      invariant forall j | 0 <= j < i :: expected[j].Fields? && AuthOf(expected[j]) in Auths(actual)
    {
      if !expected[i].Fields? { return false; }
      var wanted := AuthOf(expected[i]);
      var found := false;
      for k := 0 to |actual|
        invariant found <==> exists j :: 0 <= j < k && AuthOf(actual[j]) == wanted
      {
        if AuthOf(actual[k]) == wanted { found := true; }
      }
      assert found <==> wanted in Auths(actual) by {
        if found { var j :| 0 <= j < |actual| && AuthOf(actual[j]) == wanted; assert Auths(actual)[j] == wanted; }
        if wanted in Auths(actual) { var j :| 0 <= j < |actual| && Auths(actual)[j] == wanted; }
      }
      if !found { return false; }
    }
    return true;
  }

  lemma {:induction false} OccursAtMostOnce<T>(s: seq<T>, x: T)
    requires NoRepeats(s)
    ensures multiset(s)[x] <= 1
    decreases |s|
  {
    if s != [] {
      OccursAtMostOnce(s[1..], x);
      assert s == [s[0]] + s[1..];
    }
  }

  /** Pigeonhole: a list that contains every member of an equally long list without repeats is a
      permutation of it. */
  lemma EqualLengthCover<T>(a: seq<T>, e: seq<T>)
    requires |a| == |e| && NoRepeats(e) && forall i | 0 <= i < |e| :: e[i] in a
    ensures multiset(a) == multiset(e)
  {
    forall x ensures multiset(e)[x] <= multiset(a)[x] {
      OccursAtMostOnce(e, x);
      if x in multiset(e) { assert x in e; assert x in a; }
    }
    assert multiset(e) <= multiset(a);
    assert multiset(a) == multiset(e) + (multiset(a) - multiset(e));
    assert |multiset(a) - multiset(e)| == 0;
  }

  lemma CoversIffPermutation(actual: seq<Value>, expected: seq<Value>)
    requires NoRepeats(Auths(expected))
    ensures Covers(actual, expected) <==> AllMaps(expected) && multiset(Auths(actual)) == multiset(Auths(expected))
  {
    var a, e := Auths(actual), Auths(expected);
    if Covers(actual, expected) {
      EqualLengthCover(a, e);
    }
    if AllMaps(expected) && multiset(a) == multiset(e) {
      assert |a| == |multiset(a)| && |e| == |multiset(e)|;
      forall i | 0 <= i < |e| ensures AuthOf(expected[i]) in a { assert e[i] in multiset(e); }
    }
  }

  /** Replacing the second of two equal expected drivers by an entry that is no map fools the test. */
  lemma RepeatIsFooled(expected: seq<Value>, i: nat, j: nat)
    requires AllMaps(expected) && i < j < |expected| && AuthOf(expected[i]) == AuthOf(expected[j])
    ensures var actual := expected[j := Null];
      Covers(actual, expected) && multiset(Auths(actual)) != multiset(Auths(expected))
  {
    var actual := expected[j := Null];
    var a, e := Auths(actual), Auths(expected);
    forall k | 0 <= k < |expected| ensures AuthOf(expected[k]) in a {
      if k == j { assert a[i] == AuthOf(expected[k]); } else { assert a[k] == AuthOf(expected[k]); }
    }
    assert a[j] == None && None in multiset(a);
    assert forall k | 0 <= k < |e| :: e[k] != None;
    assert None !in multiset(e);
  }

  /** The test decides "is a permutation of" for every actual list if and only if the expected
      types do not repeat. */
  lemma TestIsExactIff(expected: seq<Value>)
    requires AllMaps(expected)
    ensures NoRepeats(Auths(expected)) <==>
            forall actual :: Covers(actual, expected) ==> multiset(Auths(actual)) == multiset(Auths(expected))
  {
    if NoRepeats(Auths(expected)) {
      forall actual | Covers(actual, expected) ensures multiset(Auths(actual)) == multiset(Auths(expected)) {
        CoversIffPermutation(actual, expected);
      }
    } else {
      var i, j :| 0 <= i < j < |expected| && Auths(expected)[i] == Auths(expected)[j];
      RepeatIsFooled(expected, i, j);
    }
  }

  // ---------------------------------------------------------------- enable and disable

  function ServerFields(host: string, image: string): Value {
    Fields(map[
      "endpointsExposure" := Items([Fields(map[
        "protocol" := Text("grpc"),
        "grpc" := Fields(map["type" := Text("hostname"), "hostname" := Fields(map["host" := Text(host)])])])]),
      "imagePullSpec" := Text(image)])
  }

  /** Host name of the first exposed endpoint. */
  function CurrentHost(o: Record): string {
    var exposed := ItemsAt(Fields(o), SPEC, SERVER, "endpointsExposure");
    if exposed == [] then "" else TextAt(exposed[0], "grpc", "hostname", "host")
  }

  predicate UpToDate(o: Record, host: string, image: string) {
    && Covers(ItemsAt(Fields(o), SPEC, REGISTRATION, DRIVERS), EXPECTED_DRIVERS)
    && TextAt(Fields(o), SPEC, SERVER, "imagePullSpec") == image
    && CurrentHost(o) == host
  }

  function SubRecord(r: Record, key: string): Record {
    if key in r && r[key].Fields? then r[key].fields else map[]
  }

  function Configured(spec: Record, host: string, image: string): Record {
    spec[REGISTRATION := Fields(SubRecord(spec, REGISTRATION)[DRIVERS := Items(EXPECTED_DRIVERS)])]
        [SERVER := ServerFields(host, image)]
  }

  function Enabled(o: Record, host: string, image: string): Record {
    if UpToDate(o, host, image) then o
    else o[SPEC := Fields(Configured(SubRecord(o, SPEC), host, image))]
  }

  predicate HasDrivers(spec: Record) {
    REGISTRATION in spec && spec[REGISTRATION].Fields? && DRIVERS in spec[REGISTRATION].fields
  }

  function Cleared(spec: Record): Record {
    var rest := SubRecord(spec, REGISTRATION) - {DRIVERS};
    var registered :=
      if REGISTRATION !in spec || !spec[REGISTRATION].Fields? then spec
      else if rest == map[] then spec - {REGISTRATION}
      else spec[REGISTRATION := Fields(rest)];
    registered - {SERVER}
  }

  /** Removes the configuration when there is any; None when the spec is not a map. */
  function Disabled(o: Record): Option<Record> {
    if SPEC !in o then Some(o)
    else if !o[SPEC].Fields? then None
    else
      var spec := o[SPEC].fields;
      Some(if HasDrivers(spec) || SERVER in spec then o[SPEC := Fields(Cleared(spec))] else o)
  }

  class ClusterManager {
    var content: Record

    constructor (o: Record)
      ensures content == o
    {
      content := o;
    }

    method EnableGrpcServer(host: string, image: string) returns (updated: bool)
      modifies this
      ensures content == Enabled(old(content), host, image)
      ensures updated <==> !UpToDate(old(content), host, image)
    {
      updated := false;
      var same := DriversMatch(ItemsAt(Fields(content), SPEC, REGISTRATION, DRIVERS), EXPECTED_DRIVERS);
      if !same { updated := true; }
      if TextAt(Fields(content), SPEC, SERVER, "imagePullSpec") != image { updated := true; }
      if CurrentHost(content) != host { updated := true; }
      if !updated { return; }

      var spec: Record := if SPEC in content && content[SPEC].Fields? then content[SPEC].fields else map[];
      var registration: Record :=
        if REGISTRATION in spec && spec[REGISTRATION].Fields? then spec[REGISTRATION].fields else map[];
      registration := registration[DRIVERS := Items(EXPECTED_DRIVERS)];
      spec := spec[REGISTRATION := Fields(registration)];
      spec := spec[SERVER := ServerFields(host, image)];
      content := content[SPEC := Fields(spec)];
    }

    method DisableGrpcServer() returns (ok: bool)
      modifies this
      ensures ok <==> Disabled(old(content)).Some?
      ensures content == if ok then Disabled(old(content)).value else old(content)
    {
      if SPEC !in content { return true; }
      if !content[SPEC].Fields? { return false; }
      var spec, modified := content[SPEC].fields, false;
      ghost var initial := spec;
      if REGISTRATION in spec && spec[REGISTRATION].Fields? {
        var registration := spec[REGISTRATION].fields;
        if DRIVERS in registration {
          registration := registration - {DRIVERS};
          spec := spec[REGISTRATION := Fields(registration)];
          modified := true;
        } else {
          assert registration - {DRIVERS} == registration;
          assert spec[REGISTRATION := Fields(registration)] == spec;
        }
        if registration == map[] {
          spec := spec - {REGISTRATION};
          assert spec == initial - {REGISTRATION};
        }
      }
      if SERVER in spec {
        spec := spec - {SERVER};
        modified := true;
      } else {
        assert spec - {SERVER} == spec;
      }
      assert spec == Cleared(initial);
      if modified { content := content[SPEC := Fields(spec)]; }
      return true;
    }
  }

  // ----------------------------------------------------------------------- round trips

  lemma ConfiguredIsUpToDate(o: Record, spec: Record, host: string, image: string)
    ensures UpToDate(o[SPEC := Fields(Configured(spec, host, image))], host, image)
  {
    assert Covers(EXPECTED_DRIVERS, EXPECTED_DRIVERS) by {
      assert forall i | 0 <= i < |EXPECTED_DRIVERS| :: AuthOf(EXPECTED_DRIVERS[i]) == Auths(EXPECTED_DRIVERS)[i];
    }
  }

  /** Enabling twice is enabling once, whatever the object held before. */
  lemma EnableIsIdempotent(o: Record, host: string, image: string)
    ensures UpToDate(Enabled(o, host, image), host, image)
    ensures Enabled(Enabled(o, host, image), host, image) == Enabled(o, host, image)
  {
    if !UpToDate(o, host, image) { ConfiguredIsUpToDate(o, SubRecord(o, SPEC), host, image); }
  }

  /** After enabling, whatever the object held, it reads: the two authentication types, the image, and
      the host of the first endpoint. */
  lemma EnabledReads(o: Record, host: string, image: string)
    ensures var e := Fields(Enabled(o, host, image));
      var drivers := ItemsAt(e, "spec", "registrationConfiguration", "registrationDrivers");
      var exposed := ItemsAt(e, "spec", "serverConfiguration", "endpointsExposure");
      && multiset(Auths(drivers)) == multiset{Some(Text("csr")), Some(Text("grpc"))}
      && TextAt(e, "spec", "serverConfiguration", "imagePullSpec") == image
      && (if exposed == [] then "" else TextAt(exposed[0], "grpc", "hostname", "host")) == host
  {
    EnableIsIdempotent(o, host, image);
    ExpectedAuths();
    CoversIffPermutation(ItemsAt(Fields(Enabled(o, host, image)), SPEC, REGISTRATION, DRIVERS), EXPECTED_DRIVERS);
  }

  lemma ExpectedAuths()
    ensures Auths(EXPECTED_DRIVERS) == [Some(Text("csr")), Some(Text("grpc"))] && NoRepeats(Auths(EXPECTED_DRIVERS))
  {
    assert "csr"[0] != "grpc"[0];
  }

  /** An update writes exactly this configuration. */
  lemma UpdateWrites(o: Record, host: string, image: string)
    requires !UpToDate(o, host, image)
    ensures var e := Fields(Enabled(o, host, image));
      && At(e, "spec", "serverConfiguration", "imagePullSpec") == Some(Text(image))
      && At(e, "spec", "registrationConfiguration", "registrationDrivers") == Some(Items(EXPECTED_DRIVERS))
      && ItemsAt(e, "spec", "serverConfiguration", "endpointsExposure") ==
         [Fields(map["protocol" := Text("grpc"), "grpc" := Fields(map[
           "type" := Text("hostname"), "hostname" := Fields(map["host" := Text(host)])])])]
  {
  }

  /** An object that is up to date has drivers, and its spec is a map. */
  lemma UpToDateHasDrivers(o: Record, host: string, image: string)
    requires UpToDate(o, host, image)
    ensures SPEC in o && o[SPEC].Fields? && HasDrivers(o[SPEC].fields)
  {
    assert At(Fields(o), SPEC, REGISTRATION, DRIVERS).Some?;
  }

  /** The spec is a map that holds nothing the edits would lose. */
  predicate Restorable(o: Record) {
    && SPEC in o && o[SPEC].Fields?
    && SERVER !in o[SPEC].fields
    && (REGISTRATION in o[SPEC].fields ==>
          var r := o[SPEC].fields[REGISTRATION];
          r.Fields? && r.fields != map[] && DRIVERS !in r.fields)
  }

  lemma ClearConfigured(spec: Record, host: string, image: string)
    ensures HasDrivers(Configured(spec, host, image))
    ensures var rest := SubRecord(spec, REGISTRATION) - {DRIVERS};
      Cleared(Configured(spec, host, image)) ==
      (if rest == map[] then spec - {REGISTRATION} else spec[REGISTRATION := Fields(rest)]) - {SERVER}
  {
    var c := Configured(spec, host, image);
    var rest := SubRecord(spec, REGISTRATION) - {DRIVERS};
    assert SubRecord(c, REGISTRATION) - {DRIVERS} == rest;
    if rest == map[] {
      assert Cleared(c) == spec - {REGISTRATION} - {SERVER};
    } else {
      assert Cleared(c) == spec[REGISTRATION := Fields(rest)] - {SERVER};
    }
  }

  /** Disabling after enabling restores the object exactly when it is restorable. */
  lemma DisableUndoesEnableIff(o: Record, host: string, image: string)
    ensures Disabled(Enabled(o, host, image)) == Some(o) <==> Restorable(o)
  {
    if UpToDate(o, host, image) {
      UpToDateHasDrivers(o, host, image);
      ClearedLosesDrivers(o[SPEC].fields);
    } else {
      var spec := SubRecord(o, SPEC);
      var e := Enabled(o, host, image);
      ClearConfigured(spec, host, image);
      assert e[SPEC := Fields(Cleared(Configured(spec, host, image)))] == o[SPEC := Fields(Cleared(Configured(spec, host, image)))];
      assert Disabled(e) == Some(o[SPEC := Fields(Cleared(Configured(spec, host, image)))]);
      ClearedIsSameIff(spec, host, image);
      if Restorable(o) {
        assert o[SPEC := o[SPEC]] == o;
      }
    }
  }

  lemma ClearedLosesDrivers(spec: Record)
    requires HasDrivers(spec)
    ensures Cleared(spec) != spec
  {
    assert !HasDrivers(Cleared(spec));
  }

  lemma ClearedIsSameIff(spec: Record, host: string, image: string)
    ensures Cleared(Configured(spec, host, image)) == spec <==>
      && SERVER !in spec
      && (REGISTRATION in spec ==>
            spec[REGISTRATION].Fields? && spec[REGISTRATION].fields != map[] && DRIVERS !in spec[REGISTRATION].fields)
  {
    ClearConfigured(spec, host, image);
    var c := Cleared(Configured(spec, host, image));
    var rest := SubRecord(spec, REGISTRATION) - {DRIVERS};
    if SERVER in spec {
      assert SERVER !in c;
    } else if REGISTRATION !in spec {
      assert rest == map[];
      assert c == spec;
    } else if rest == map[] {
      assert REGISTRATION !in c;
      if spec[REGISTRATION].Fields? && DRIVERS !in spec[REGISTRATION].fields { assert spec[REGISTRATION].fields == rest; }
    } else {
      assert c[REGISTRATION] == Fields(rest);
      if DRIVERS !in spec[REGISTRATION].fields { assert rest == spec[REGISTRATION].fields; assert c == spec; }
    }
  }

  /** The configuration reads exactly as an update writes it. */
  predicate Canonical(o: Record, host: string, image: string) {
    && SPEC in o && o[SPEC].Fields?
    && HasDrivers(o[SPEC].fields) && o[SPEC].fields[REGISTRATION].fields[DRIVERS] == Items(EXPECTED_DRIVERS)
    && SERVER in o[SPEC].fields && o[SPEC].fields[SERVER] == ServerFields(host, image)
  }

  /** Configuring a cleared spec: the rest of the registration is kept. */
  lemma ConfigureCleared(spec: Record, host: string, image: string)
    requires HasDrivers(spec)
    ensures Configured(Cleared(spec), host, image) ==
      spec[REGISTRATION := Fields(spec[REGISTRATION].fields[DRIVERS := Items(EXPECTED_DRIVERS)])]
          [SERVER := ServerFields(host, image)]
  {
    var rest := spec[REGISTRATION].fields - {DRIVERS};
    assert SubRecord(Cleared(spec), REGISTRATION) == rest;
    assert rest[DRIVERS := Items(EXPECTED_DRIVERS)] == spec[REGISTRATION].fields[DRIVERS := Items(EXPECTED_DRIVERS)];
  }

  /** Off and on again, for a spec that has drivers. */
  lemma OffAndOn(o: Record, host: string, image: string)
    requires SPEC in o && o[SPEC].Fields? && HasDrivers(o[SPEC].fields)
    ensures Disabled(o).Some?
    ensures Enabled(Disabled(o).value, host, image) ==
            o[SPEC := Fields(Configured(Cleared(o[SPEC].fields), host, image))]
  {
    var off := Disabled(o).value;
    assert off == o[SPEC := Fields(Cleared(o[SPEC].fields))];
    assert !HasDrivers(Cleared(o[SPEC].fields));
    if UpToDate(off, host, image) {
      UpToDateHasDrivers(off, host, image);
      assert false;
    }
  }

  /** Switching off and on again restores what enabling left if and only if enabling wrote it or
      found it as it would have written it. */
  lemma EnableRestoresIff(o: Record, host: string, image: string)
    ensures Disabled(Enabled(o, host, image)).Some?
    ensures Enabled(Disabled(Enabled(o, host, image)).value, host, image) == Enabled(o, host, image) <==>
            (UpToDate(o, host, image) ==> Canonical(o, host, image))
  {
    var e := Enabled(o, host, image);
    if UpToDate(o, host, image) { UpToDateHasDrivers(o, host, image); }
    OffAndOn(e, host, image);
    ConfigureCleared(e[SPEC].fields, host, image);
    CanonicalIff(e, host, image);
  }

  lemma CanonicalIff(o: Record, host: string, image: string)
    requires SPEC in o && o[SPEC].Fields? && HasDrivers(o[SPEC].fields)
    ensures var spec := o[SPEC].fields;
      Canonical(o, host, image) <==>
      o == o[SPEC := Fields(
        spec[REGISTRATION := Fields(spec[REGISTRATION].fields[DRIVERS := Items(EXPECTED_DRIVERS)])]
            [SERVER := ServerFields(host, image)])]
  {
    var spec := o[SPEC].fields;
    var reg := spec[REGISTRATION].fields;
    var reg' := reg[DRIVERS := Items(EXPECTED_DRIVERS)];
    var spec' := spec[REGISTRATION := Fields(reg')][SERVER := ServerFields(host, image)];
    if Canonical(o, host, image) {
      assert reg' == reg;
      assert spec' == spec;
    }
  }

  /** Neither edit touches any other key of the object, of its spec, or of the registration; a spec
      that is missing or no map counts as empty, and disabling refuses one that is no map. */
  lemma EditsFrame(o: Record, host: string, image: string, key: string)
    ensures FramedAt(o, Enabled(o, host, image), key)
    ensures Disabled(o).None? <==> SPEC in o && !o[SPEC].Fields?
    ensures Disabled(o).Some? ==> FramedAt(o, Disabled(o).value, key)
  {
    EnableFrame(o, host, image, key);
    DisableFrame(o, key);
  }

  lemma EnableFrame(o: Record, host: string, image: string, key: string)
    ensures FramedAt(o, Enabled(o, host, image), key)
  {
    var spec := SubRecord(o, SPEC);
    var c := Configured(spec, host, image);
    assert SubRecord(c, REGISTRATION) == SubRecord(spec, REGISTRATION)[DRIVERS := Items(EXPECTED_DRIVERS)];
  }

  lemma DisableFrame(o: Record, key: string)
    ensures Disabled(o).Some? ==> FramedAt(o, Disabled(o).value, key)
  {
    var spec := SubRecord(o, SPEC);
    assert Same(SubRecord(spec, REGISTRATION), SubRecord(Cleared(spec), REGISTRATION), key) || key == DRIVERS;
  }

  predicate FramedAt(o: Record, o': Record, key: string) {
    && (key != SPEC ==> Same(o, o', key))
    && (key != REGISTRATION && key != SERVER ==> Same(SubRecord(o, SPEC), SubRecord(o', SPEC), key))
    && (key != DRIVERS ==> Same(Registration(o), Registration(o'), key))
  }

  function Registration(o: Record): Record {
    SubRecord(SubRecord(o, SPEC), REGISTRATION)
  }

  predicate Same(a: Record, b: Record, key: string) {
    (key in a <==> key in b) && (key in a ==> a[key] == b[key])
  }
}
