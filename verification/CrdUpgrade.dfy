/** The CRD upgrade validator.  Schema validation is a parameter: accepts(schema, object) is
    true when a validator for the schema can be built and takes the object. */
module CrdUpgrade {
  import opened Text

  type Schema = string
  type CustomObject = string
  type Acceptance = (Schema, CustomObject) -> bool

  datatype Version = Version(name: string, served: bool, storage: bool, schema: Schema)

  datatype Conversion = NoneConverter | WebhookConverter

  datatype CRD = CRD(name: string, versions: seq<Version>, conversion: Option<Conversion>, storedVersions: seq<string>)

  /** The objects in their form at each version, served or not; the list call at a missing one fails. */
  type Listing = map<string, seq<CustomObject>>

  datatype Error =
    GetFailed | StoredVersionRemoved | ConversionFailed | ObjectsRejected(version: string) | DataLoss | NoVersions

  // ---- specification ----

  /** The versions by name; a later entry of the same name wins. */
  function ByName(vs: seq<Version>): map<string, Version> {
    if vs == [] then map[] else ByName(vs[..|vs| - 1])[vs[|vs| - 1].name := vs[|vs| - 1]]
  }

  function Versions(crd: CRD): map<string, Version> {
    ByName(crd.versions)
  }

  predicate AllAccepted(accepts: Acceptance, schema: Schema, objs: seq<CustomObject>) {
    forall i :: 0 <= i < |objs| ==> accepts(schema, objs[i])
  }

  /** Every object listed at a version satisfies a schema. */
  predicate ListedAccepted(listing: Listing, accepts: Acceptance, at: string, schema: Schema) {
    at in listing && AllAccepted(accepts, schema, listing[at])
  }

  ghost predicate NoStoredRemoved(before: CRD, after: CRD) {
    forall v :: v in before.storedVersions && v in Versions(before) ==> v in Versions(after)
  }

  /** Stored versions of the old CRD are versions of the new one. */
  ghost predicate StorageSafe(before: CRD, after: CRD) {
    forall v :: v in before.storedVersions ==> v in Versions(after)
  }

  ghost predicate ChangesAccepted(listing: Listing, accepts: Acceptance,
                                  o: map<string, Version>, n: map<string, Version>) {
    forall v :: v in o && v in n && o[v].schema != n[v].schema && o[v].served ==>
      ListedAccepted(listing, accepts, v, n[v].schema)
  }

  predicate Unconverted(crd: CRD) {
    crd.conversion.None? || crd.conversion.value.NoneConverter?
  }

  ghost predicate AdditionsAccepted(listing: Listing, accepts: Acceptance,
                                    o: map<string, Version>, n: map<string, Version>) {
    forall a, v :: a in n && a !in o && v in o && v in n && o[v].served ==>
      ListedAccepted(listing, accepts, v, n[a].schema)
  }

  ghost predicate Compatible(listing: Listing, accepts: Acceptance, before: CRD, after: CRD) {
    && NoStoredRemoved(before, after)
    && ChangesAccepted(listing, accepts, Versions(before), Versions(after))
    && (Unconverted(after) ==> AdditionsAccepted(listing, accepts, Versions(before), Versions(after)))
  }

  /** The updates the validator lets through. */
  ghost predicate Admitted(listing: Listing, accepts: Acceptance, before: CRD, after: CRD) {
    Compatible(listing, accepts, before, after) && StorageSafe(before, after)
  }

  // ---- the validator ----

  method CollectVersions(vs: seq<Version>) returns (m: map<string, Version>)
    ensures m == ByName(vs)
  {
    m := map[];
    for i := 0 to |vs|
      invariant m == ByName(vs[..i])
    {
      assert vs[..i + 1][..i] == vs[..i];
      m := m[vs[i].name := vs[i]];
    }
    assert vs[..|vs|] == vs;
  }

  /** validateExistingCRs. */
  method ValidateExistingCRs(listing: Listing, accepts: Acceptance, at: string, schema: Schema) returns (ok: bool)
    ensures ok <==> ListedAccepted(listing, accepts, at, schema)
  {
    if at !in listing { return false; }
    var items := listing[at];
    for i := 0 to |items|
      invariant AllAccepted(accepts, schema, items[..i])
    {
      if !accepts(schema, items[i]) { return false; }
    }
    ok := true;
  }

  method ValidateChanges(listing: Listing, accepts: Acceptance, o: map<string, Version>, n: map<string, Version>)
    returns (r: Result<(), Error>)
    ensures r.Success? <==> ChangesAccepted(listing, accepts, o, n)
    ensures r.Failure? ==>
              && r.error.ObjectsRejected?
              && var v := r.error.version;
                 v in o && v in n && o[v].schema != n[v].schema && o[v].served
                 && !ListedAccepted(listing, accepts, v, n[v].schema)
  {
    var similar := o.Keys * n.Keys;
    var diff := set v | v in similar && o[v].schema != n[v].schema;
    var todo := diff;
    while todo != {}
      invariant todo <= diff
      invariant forall v :: v in diff && v !in todo && o[v].served ==> ListedAccepted(listing, accepts, v, n[v].schema)
    {
      var v :| v in todo;
      todo := todo - {v};
      if o[v].served {
        var ok := ValidateExistingCRs(listing, accepts, v, n[v].schema);
        if !ok { return Failure(ObjectsRejected(v)); }
      }
    }
    r := Success(());
  }

  method ValidateAdditions(listing: Listing, accepts: Acceptance, o: map<string, Version>, n: map<string, Version>)
    returns (r: Result<(), Error>)
    ensures r.Success? <==> AdditionsAccepted(listing, accepts, o, n)
    ensures r.Failure? ==>
              && r.error.ObjectsRejected?
              && var a := r.error.version;
                 a in n && a !in o
                 && exists v :: v in o && v in n && o[v].served && !ListedAccepted(listing, accepts, v, n[a].schema)
  {
    var added, similar := n.Keys - o.Keys, o.Keys * n.Keys;
    var todo := added;
    while todo != {}
      invariant todo <= added
      invariant forall a, v :: a in added && a !in todo && v in similar && o[v].served ==>
        ListedAccepted(listing, accepts, v, n[a].schema)
    {
      var a :| a in todo;
      todo := todo - {a};
      var rest := similar;
      while rest != {}
        invariant rest <= similar
        invariant forall v :: v in similar && v !in rest && o[v].served ==>
          ListedAccepted(listing, accepts, v, n[a].schema)
      {
        var v :| v in rest;
        rest := rest - {v};
        if o[v].served {
          var ok := ValidateExistingCRs(listing, accepts, v, n[a].schema);
          if !ok { return Failure(ObjectsRejected(a)); }
        }
      }
    }
    r := Success(());
  }

  /** validateCRDCompatibility; converts says whether the new CRD has an internal form at all. */
  method ValidateCompatibility(listing: Listing, accepts: Acceptance, converts: bool, before: CRD, after: CRD)
    returns (r: Result<(), Error>)
    ensures r.Success? <==> converts && Compatible(listing, accepts, before, after)
    ensures r != Failure(NoVersions) && r != Failure(DataLoss)
    ensures r == Failure(StoredVersionRemoved) <==> !NoStoredRemoved(before, after)
    ensures r == Failure(ConversionFailed) <==> NoStoredRemoved(before, after) && !converts
  {
    var o := CollectVersions(before.versions);
    var n := CollectVersions(after.versions);
    var stored := set v | v in before.storedVersions;
    var removed := o.Keys - n.Keys;
    var invalid := stored * removed;
    if |invalid| > 0 {
      var v :| v in invalid;
      return Failure(StoredVersionRemoved);
    }
    assert invalid == {};
    assert NoStoredRemoved(before, after) by {
      forall v | v in before.storedVersions && v in o ensures v in n { assert v !in invalid; }
    }
    if !converts { return Failure(ConversionFailed); }
    r := ValidateChanges(listing, accepts, o, n);
    if r.Failure? { return; }
    if |n.Keys - o.Keys| > 0 && Unconverted(after) {
      r := ValidateAdditions(listing, accepts, o, n);
    } else {
      assert |n.Keys - o.Keys| == 0 ==> n.Keys - o.Keys == {};
      assert |n.Keys - o.Keys| == 0 ==> forall a :: a in n && a !in o ==> a in n.Keys - o.Keys;
    }
  }

  /** safeStorageVersionUpgrade, after getStoredVersions; a nil set is None. */
  method CompareStored(existing: Option<set<string>>, spec: Option<set<string>>)
    returns (safe: bool, error: Option<Error>)
    ensures spec.None? ==> !safe && error == Some(NoVersions)
    ensures spec.Some? ==> (safe <==> existing.None? || existing.value <= spec.value)
    ensures spec.Some? ==> error == if safe then None else Some(DataLoss)
  {
    if spec.None? { return false, Some(NoVersions); }
    if existing.None? { return true, None; }
    var todo := existing.value;
    while todo != {}
      invariant todo <= existing.value && existing.value - todo <= spec.value
    {
      var name :| name in todo;
      todo := todo - {name};
      if name !in spec.value { return false, Some(DataLoss); }
    }
    return true, None;
  }

  /** getStoredVersions: neither set is ever nil. */
  method GetStoredVersions(before: CRD, after: CRD) returns (existing: Option<set<string>>, spec: Option<set<string>>)
    ensures existing == Some(set v | v in before.storedVersions)
    ensures spec == Some(Versions(after).Keys)
  {
    var names: set<string> := {};
    var vs := after.versions;
    for i := 0 to |vs|
      invariant names == ByName(vs[..i]).Keys
    {
      assert vs[..i + 1][..i] == vs[..i];
      names := names + {vs[i].name};
    }
    assert vs[..|vs|] == vs;
    return Some(set v | v in before.storedVersions), Some(names);
  }

  method SafeStorageVersionUpgrade(before: CRD, after: CRD) returns (safe: bool, error: Option<Error>)
    ensures safe <==> StorageSafe(before, after)
    ensures error == if safe then None else Some(DataLoss)
  {
    var existing, spec := GetStoredVersions(before, after);
    safe, error := CompareStored(existing, spec);
  }

  datatype Lookup = NotFound | LookupFailed | Found(crd: CRD)

  /** crd.Validate. */
  method Validate(lookup: Lookup, listing: Listing, accepts: Acceptance, converts: bool, after: CRD)
    returns (r: Result<(), Error>)
    ensures lookup.NotFound? ==> r.Success?
    ensures lookup.LookupFailed? ==> r.Failure?
    ensures lookup.Found? ==> (r.Success? <==> converts && Admitted(listing, accepts, lookup.crd, after))
    ensures r != Failure(NoVersions)
    ensures lookup.Found? && StoredInSpec(lookup.crd) ==> r != Failure(DataLoss)
    ensures lookup.Found? && converts && StorageSafe(lookup.crd, after) ==>
              (r.Failure? <==> exists v, schema :: MustMeet(lookup.crd, after, v, schema)
                                                   && !Met(listing, accepts, v, schema))
  {
    if lookup.Found? && StorageSafe(lookup.crd, after) { RefusedIff(listing, accepts, lookup.crd, after); }
    match lookup {
      case NotFound => return Success(());
      case LookupFailed => return Failure(GetFailed);
      case Found(before) =>
        r := ValidateCompatibility(listing, accepts, converts, before, after);
        if r.Failure? { return; }
        var safe, error := SafeStorageVersionUpgrade(before, after);
        if !safe { return Failure(error.value); }
        return Success(());
    }
  }

  // ---- what is refused, over objects ----

  /** The last entry of this name in the CRD. */
  ghost predicate HasVersion(crd: CRD, v: Version) {
    exists i :: 0 <= i < |crd.versions| && crd.versions[i] == v
                && forall j :: i < j < |crd.versions| ==> crd.versions[j].name != v.name
  }

  lemma {:induction false} ByNameIsLast(vs: seq<Version>, name: string)
    ensures name in ByName(vs) <==> exists i :: 0 <= i < |vs| && vs[i].name == name
    ensures name in ByName(vs) ==> ByName(vs)[name].name == name
    ensures name in ByName(vs) ==>
              exists i :: 0 <= i < |vs| && vs[i] == ByName(vs)[name] && forall j :: i < j < |vs| ==> vs[j].name != name
  {
    if vs != [] {
      var n := |vs| - 1;
      ByNameIsLast(vs[..n], name);
      if vs[n].name != name && name in ByName(vs) {
        var i :| 0 <= i < n && vs[..n][i] == ByName(vs)[name] && forall j :: i < j < n ==> vs[..n][j].name != name;
        assert vs[i] == ByName(vs)[name] && forall j :: i < j < n ==> vs[j].name == vs[..n][j].name;
      }
    }
  }

  lemma {:induction false} VersionsAre(crd: CRD, v: Version)
    ensures HasVersion(crd, v) <==> v.name in Versions(crd) && Versions(crd)[v.name] == v
  {
    ByNameIsLast(crd.versions, v.name);
  }

  predicate Lacks(crd: CRD, name: string) {
    forall i :: 0 <= i < |crd.versions| ==> crd.versions[i].name != name
  }

  /** The schema of version v changes. */
  ghost predicate ChangesTo(before: CRD, after: CRD, v: string, schema: Schema) {
    exists o, n :: HasVersion(before, o) && HasVersion(after, n) && o.name == n.name == v
                   && o.schema != n.schema && schema == n.schema
  }

  /** A version with this schema is added, and nothing converts objects to it. */
  ghost predicate AddsUnconverted(before: CRD, after: CRD, schema: Schema) {
    && after.conversion != Some(WebhookConverter)
    && exists a :: HasVersion(after, a) && Lacks(before, a.name) && a.schema == schema
  }

  ghost predicate ServedAndStays(before: CRD, after: CRD, v: string) {
    exists o :: HasVersion(before, o) && o.name == v && o.served && !Lacks(after, v)
  }

  /** The objects at served version v have to meet a schema: the changed one of that version or,
      where nothing converts them, one of a version that is added. */
  ghost predicate MustMeet(before: CRD, after: CRD, v: string, schema: Schema) {
    && ServedAndStays(before, after, v)
    && (ChangesTo(before, after, v, schema) || AddsUnconverted(before, after, schema))
  }

  /** The objects at a version can be listed, and each satisfies a schema. */
  ghost predicate Met(listing: Listing, accepts: Acceptance, v: string, schema: Schema) {
    v in listing && forall f :: f in listing[v] ==> accepts(schema, f)
  }

  lemma {:induction false} MetIff(listing: Listing, accepts: Acceptance, v: string, schema: Schema)
    ensures Met(listing, accepts, v, schema) <==> ListedAccepted(listing, accepts, v, schema)
  {
  }

  lemma {:induction false} LacksIff(crd: CRD, name: string)
    ensures Lacks(crd, name) <==> name !in Versions(crd)
    ensures !Lacks(crd, name) ==> HasVersion(crd, Versions(crd)[name]) && Versions(crd)[name].name == name
  {
    ByNameIsLast(crd.versions, name);
    if name in Versions(crd) { VersionsAre(crd, Versions(crd)[name]); }
  }

  lemma {:induction false} ServedAndStaysIff(before: CRD, after: CRD, v: string)
    ensures ServedAndStays(before, after, v)
            <==> v in Versions(before) && v in Versions(after) && Versions(before)[v].served
  {
    LacksIff(before, v);
    LacksIff(after, v);
    if o :| HasVersion(before, o) && o.name == v { VersionsAre(before, o); }
  }

  lemma {:induction false} ChangesToIff(before: CRD, after: CRD, v: string, schema: Schema)
    ensures var o, n := Versions(before), Versions(after);
            ChangesTo(before, after, v, schema)
            <==> v in o && v in n && o[v].schema != n[v].schema && schema == n[v].schema
  {
    LacksIff(before, v);
    LacksIff(after, v);
    if o, n :| HasVersion(before, o) && HasVersion(after, n) && o.name == n.name == v
               && o.schema != n.schema && schema == n.schema {
      VersionsAre(before, o);
      VersionsAre(after, n);
    }
  }

  lemma {:induction false} AddsUnconvertedIff(before: CRD, after: CRD, schema: Schema)
    ensures var o, n := Versions(before), Versions(after);
            AddsUnconverted(before, after, schema)
            <==> Unconverted(after) && exists a :: a in n && a !in o && schema == n[a].schema
  {
    var o, n := Versions(before), Versions(after);
    if a :| HasVersion(after, a) && Lacks(before, a.name) && a.schema == schema {
      VersionsAre(after, a);
      LacksIff(before, a.name);
    }
    if a :| a in n && a !in o && schema == n[a].schema {
      LacksIff(before, a);
      LacksIff(after, a);
    }
  }

  /** A storage-safe update is refused exactly when some objects at a served version that stays cannot
      be listed, or one of them fails a schema it has to meet. */
  lemma {:induction false} RefusedIff(listing: Listing, accepts: Acceptance, before: CRD, after: CRD)
    requires StorageSafe(before, after)
    ensures !Admitted(listing, accepts, before, after)
            <==> exists v, schema :: MustMeet(before, after, v, schema) && !Met(listing, accepts, v, schema)
  {
    var o, n := Versions(before), Versions(after);
    if v, schema :| MustMeet(before, after, v, schema) && !Met(listing, accepts, v, schema) {
      UnmetIsRefused(listing, accepts, before, after, v, schema);
    }
    if v :| v in o && v in n && o[v].schema != n[v].schema && o[v].served
            && !ListedAccepted(listing, accepts, v, n[v].schema)
    {
      ChangesToIff(before, after, v, n[v].schema);
      UnmetBlocks(listing, accepts, before, after, v, n[v].schema);
    }
    if Unconverted(after) {
      if a, v :| a in n && a !in o && v in o && v in n && o[v].served
                 && !ListedAccepted(listing, accepts, v, n[a].schema)
      {
        AddsUnconvertedIff(before, after, n[a].schema);
        UnmetBlocks(listing, accepts, before, after, v, n[a].schema);
      }
    }
  }

  lemma {:induction false} UnmetIsRefused(listing: Listing, accepts: Acceptance, before: CRD, after: CRD,
                                          v: string, schema: Schema)
    requires MustMeet(before, after, v, schema) && !Met(listing, accepts, v, schema)
    ensures !Admitted(listing, accepts, before, after)
  {
    MetIff(listing, accepts, v, schema);
    ServedAndStaysIff(before, after, v);
    ChangesToIff(before, after, v, schema);
    AddsUnconvertedIff(before, after, schema);
  }

  lemma {:induction false} UnmetBlocks(listing: Listing, accepts: Acceptance, before: CRD, after: CRD,
                                       v: string, schema: Schema)
    requires v in Versions(before) && v in Versions(after) && Versions(before)[v].served
    requires ChangesTo(before, after, v, schema) || AddsUnconverted(before, after, schema)
    requires !ListedAccepted(listing, accepts, v, schema)
    ensures MustMeet(before, after, v, schema) && !Met(listing, accepts, v, schema)
  {
    MetIff(listing, accepts, v, schema);
    ServedAndStaysIff(before, after, v);
  }

  /** An update with a conversion webhook that keeps the stored versions and the schemas of the served
      ones that stay is let through, whatever objects there are. */
  lemma {:induction false} WebhookUpdatePasses(listing: Listing, accepts: Acceptance, before: CRD, after: CRD)
    requires after.conversion == Some(WebhookConverter)
    requires forall v :: v in before.storedVersions ==> exists n :: HasVersion(after, n) && n.name == v
    requires forall o, n :: HasVersion(before, o) && HasVersion(after, n) && o.name == n.name && o.served ==>
               o.schema == n.schema
    ensures Admitted(listing, accepts, before, after)
  {
    forall v | v in before.storedVersions ensures v in Versions(after) {
      var n :| HasVersion(after, n) && n.name == v;
      VersionsAre(after, n);
    }
    RefusedIff(listing, accepts, before, after);
  }

  // ---- storage checks ----

  /** The second storage check implies the first, and says the same where the stored versions
      are versions of the old CRD, as they are in every reachable state. */
  lemma {:induction false} SecondCheckSubsumesFirst(before: CRD, after: CRD)
    ensures StorageSafe(before, after) ==> NoStoredRemoved(before, after)
    ensures StoredInSpec(before) ==> (StorageSafe(before, after) <==> NoStoredRemoved(before, after))
  {
  }

  ghost predicate StoredInSpec(crd: CRD) {
    forall v :: v in crd.storedVersions ==> v in Versions(crd)
  }

  // ---- runs ----

  /** A CRD in a cluster and its objects. */
  datatype State = State(crd: CRD, listing: Listing)

  datatype Event =
    | Update(crd: CRD)                  // a new spec, written if admitted
    | Migrate(stored: seq<string>)      // status drops versions no longer stored
    | Objects(listing: Listing)         // objects come, go and change

  /** The API server keeps the status and adds the storage versions of the spec it stores. */
  function WithStatus(spec: CRD, stored: seq<string>): CRD {
    spec.(storedVersions := stored + StorageNames(spec.versions))
  }

  function StorageNames(vs: seq<Version>): seq<string> {
    if vs == [] then [] else StorageNames(vs[..|vs| - 1]) + (if vs[|vs| - 1].storage then [vs[|vs| - 1].name] else [])
  }

  ghost function Step(accepts: Acceptance, s: State, e: Event): State {
    match e
    case Update(crd) =>
      if Admitted(s.listing, accepts, s.crd, crd) then s.(crd := WithStatus(crd, s.crd.storedVersions)) else s
    case Migrate(stored) =>
      if forall v :: v in stored ==> v in s.crd.storedVersions then s.(crd := s.crd.(storedVersions := stored)) else s
    case Objects(listing) => s.(listing := listing)
  }

  ghost function Run(accepts: Acceptance, s: State, es: seq<Event>): State
    decreases |es|
  {
    if es == [] then s else Run(accepts, Step(accepts, s, es[0]), es[1..])
  }

  /** The status a spec is stored with: the versions stored so far, and those the spec stores at. */
  lemma {:induction false} StoredAre(spec: CRD, stored: seq<string>, name: string)
    ensures name in WithStatus(spec, stored).storedVersions
            <==> name in stored || exists v :: v in spec.versions && v.storage && v.name == name
  {
    StorageNamesAre(spec.versions, name);
  }

  lemma {:induction false} StorageNamesAre(vs: seq<Version>, name: string)
    ensures name in StorageNames(vs) <==> exists v :: v in vs && v.storage && v.name == name
  {
    if vs != [] {
      var n := |vs| - 1;
      StorageNamesAre(vs[..n], name);
      assert vs == vs[..n] + [vs[n]];
    }
  }

  lemma {:induction false} StorageNamesInSpec(vs: seq<Version>)
    ensures forall v :: v in StorageNames(vs) ==> v in ByName(vs)
  {
    if vs != [] { StorageNamesInSpec(vs[..|vs| - 1]); }
  }

  /** A run goes event by event. */
  lemma {:induction false} RunThen(accepts: Acceptance, s: State, es: seq<Event>, e: Event)
    ensures Run(accepts, s, es + [e]) == Step(accepts, Run(accepts, s, es), e)
    decreases |es|
  {
    if es == [] {
      assert (es + [e])[1..] == [];
    } else {
      assert (es + [e])[1..] == es[1..] + [e];
      RunThen(accepts, Step(accepts, s, es[0]), es[1..], e);
    }
  }

  lemma {:induction false} RunKeepsStoredInSpec(accepts: Acceptance, s: State, es: seq<Event>)
    requires StoredInSpec(s.crd)
    ensures StoredInSpec(Run(accepts, s, es).crd)
    decreases |es|
  {
    if es != [] {
      if es[0].Update? { StorageNamesInSpec(es[0].crd.versions); }
      assert StoredInSpec(Step(accepts, s, es[0]).crd);
      RunKeepsStoredInSpec(accepts, Step(accepts, s, es[0]), es[1..]);
    }
  }

  /** In every run that starts with the creation of a CRD, every stored version is a version of
      the spec, and the two storage checks agree on every further update. */
  lemma {:induction false} StoredVersionsStayInSpec(accepts: Acceptance, created: CRD, listing: Listing,
                                                    es: seq<Event>, next: CRD)
    ensures var crd := Run(accepts, State(WithStatus(created, []), listing), es).crd;
            StoredInSpec(crd) && (StorageSafe(crd, next) <==> NoStoredRemoved(crd, next))
  {
    StorageNamesInSpec(created.versions);
    assert WithStatus(created, []).storedVersions == StorageNames(created.versions);
    RunKeepsStoredInSpec(accepts, State(WithStatus(created, []), listing), es);
  }

  ghost predicate ServedAt(s: State, v: string) {
    v in Versions(s.crd) && Versions(s.crd)[v].served
  }

  ghost predicate ListedAt(s: State, v: string, f: CustomObject) {
    v in s.listing && f in s.listing[v]
  }

  /** At every point of a run the version is served and lists the object in one form. */
  ghost predicate Stands(accepts: Acceptance, s: State, es: seq<Event>, v: string, f: CustomObject)
    decreases |es|
  {
    && ServedAt(s, v) && ListedAt(s, v, f)
    && (es != [] ==> Stands(accepts, Step(accepts, s, es[0]), es[1..], v, f))
  }

  lemma {:induction false} StepKeepsValid(accepts: Acceptance, s: State, e: Event, v: string, f: CustomObject)
    requires ServedAt(s, v) && ListedAt(s, v, f) && ServedAt(Step(accepts, s, e), v)
    requires accepts(Versions(s.crd)[v].schema, f)
    ensures accepts(Versions(Step(accepts, s, e).crd)[v].schema, f)
  {
    if e.Update? && Admitted(s.listing, accepts, s.crd, e.crd) {
      var o, n := Versions(s.crd), Versions(e.crd);
      if o[v].schema != n[v].schema {
        assert ListedAccepted(s.listing, accepts, v, n[v].schema);
      }
    }
  }

  /** Through any sequence of admitted updates, object churn and status migration, an object
      that was valid at a version stays valid there while it keeps its form and the version
      stays served. */
  lemma {:induction false} RunKeepsValid(accepts: Acceptance, s: State, es: seq<Event>, v: string, f: CustomObject)
    requires Stands(accepts, s, es, v, f) && accepts(Versions(s.crd)[v].schema, f)
    ensures ServedAt(Run(accepts, s, es), v) && accepts(Versions(Run(accepts, s, es).crd)[v].schema, f)
    decreases |es|
  {
    if es != [] {
      StepKeepsValid(accepts, s, es[0], v, f);
      RunKeepsValid(accepts, Step(accepts, s, es[0]), es[1..], v, f);
    }
  }

  /** Without conversion, whatever is listed at a served version that stays is valid at every
      version the update adds, and from then on stays so. */
  lemma {:induction false} AddedVersionsAccept(accepts: Acceptance, s: State, crd: CRD, v: string, a: string,
                                               f: CustomObject, converted: Listing, es: seq<Event>)
    requires Admitted(s.listing, accepts, s.crd, crd) && Unconverted(crd)
    requires ServedAt(s, v) && ListedAt(s, v, f) && v in Versions(crd)
    requires a in Versions(crd) && a !in Versions(s.crd)
    ensures accepts(Versions(crd)[a].schema, f)
    ensures var t := State(WithStatus(crd, s.crd.storedVersions), converted);
            Stands(accepts, t, es, a, f) ==>
              var u := Run(accepts, t, es);
              ServedAt(u, a) && accepts(Versions(u.crd)[a].schema, f)
  {
    assert ListedAccepted(s.listing, accepts, v, Versions(crd)[a].schema);
    var t := State(WithStatus(crd, s.crd.storedVersions), converted);
    if Stands(accepts, t, es, a, f) { RunKeepsValid(accepts, t, es, a, f); }
  }

  // ---- the gap ----

  /** An update that passes the storage check can break an object it should have looked at. */
  ghost predicate CanBreak(before: CRD, after: CRD, v: string)
    requires v in Versions(before) && v in Versions(after)
  {
    exists listing: Listing, accepts: Acceptance, f: CustomObject ::
      Breaks(listing, accepts, before, after, v, f)
  }

  ghost predicate Breaks(listing: Listing, accepts: Acceptance, before: CRD, after: CRD, v: string, f: CustomObject)
    requires v in Versions(before) && v in Versions(after)
  {
    && Admitted(listing, accepts, before, after) && v in listing && f in listing[v]
    && accepts(Versions(before)[v].schema, f) && !accepts(Versions(after)[v].schema, f)
  }

  /** Exactly when it can: the schema changed at a version that was not served. */
  lemma {:induction false} BreaksExactlyWhenUnserved(before: CRD, after: CRD, v: string)
    requires StorageSafe(before, after) && v in Versions(before) && v in Versions(after)
    ensures CanBreak(before, after, v)
            <==> !Versions(before)[v].served && Versions(before)[v].schema != Versions(after)[v].schema
  {
    var o, n := Versions(before), Versions(after);
    if CanBreak(before, after, v) {
      var listing, accepts, f :| Breaks(listing, accepts, before, after, v, f);
    }
    if !o[v].served && o[v].schema != n[v].schema {
      var listing := map u | u in o :: if u == v then ["object"] else [];
      var accepts := (s: Schema, f: CustomObject) => s != n[v].schema;
      assert Breaks(listing, accepts, before, after, v, "object");
    }
  }
}
