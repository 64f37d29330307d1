/** What normalisation promises: a second pass changes nothing, and the sections it
    synthesises refer to one another consistently. */
module RegistryTheorems {
  import opened Wrappers
  import opened Text
  import opened Registry

  // ----- validation

  datatype ReferenceError =
    | SchemaTypeUnknown(schemaKey: string)
    | AllowedEmpty(documentType: string)
    | AllowedUnknown(documentType: string, schemaKey: string)
    | DefaultMissing(documentType: string)
    | DefaultNotAllowed(documentType: string)
    | BindingTypeUnknown(documentType: string)
    | BindingWorkflowUnknown(documentType: string, workflowKey: string)

  predicate AllObjects(f: Fields) { forall k | k in f :: f[k].Obj? }

  function AllowedKeys(h: Host, definition: Fields): set<string> {
    var items := ToArray(h, Get(definition, "allowed_schema_keys"));
    set i | 0 <= i < |items| :: ToS(h, items[i])
  }

  function SchemaErrors(h: Host, types: Fields, schemas: Fields): set<ReferenceError>
    requires AllObjects(schemas)
  {
    set k | k in schemas
      && (Blank(DocumentTypeOf(h, schemas[k].fields)) || DocumentTypeOf(h, schemas[k].fields) !in types)
      :: SchemaTypeUnknown(k)
  }

  function TypeErrors(h: Host, t: string, definition: Fields, schemas: Fields): set<ReferenceError> {
    var allowed := AllowedKeys(h, definition);
    var default := ToS(h, Get(definition, "default_schema_key"));
    (if allowed == {} then {AllowedEmpty(t)} else {})
    + (set k | k in allowed && k !in schemas :: AllowedUnknown(t, k))
    + (if Blank(default) then {DefaultMissing(t)}
       else if default !in allowed then {DefaultNotAllowed(t)} else {})
  }

  function AllTypeErrors(h: Host, types: Fields, schemas: Fields): set<ReferenceError>
    requires AllObjects(types)
  {
    set t, e | t in types && e in TypeErrors(h, t, types[t].fields, schemas) :: e
  }

  function BindingErrors(h: Host, types: Fields, bindings: Fields, definitions: Fields): set<ReferenceError> {
    (set t | t in bindings && t !in types :: BindingTypeUnknown(t))
    + (set t | t in bindings && ToS(h, bindings[t]) !in definitions
       :: BindingWorkflowUnknown(t, ToS(h, bindings[t])))
  }

  /** The dangling references of a normalised profile. Sections of the wrong shape, which the
      JSON schema also refuses, raise. */
  function ReferenceErrors(h: Host, f: Profile): Result<set<ReferenceError>> {
    var types :- HashOrEmpty(Get(f, DocumentTypes));
    var schemas :- HashOrEmpty(Get(f, DocumentSchemas));
    var bindings :- HashOrEmpty(Get(f, WorkflowBindings));
    var definitions :- HashOrEmpty(Get(f, WorkflowDefinitions));
    if !AllObjects(types) || !AllObjects(schemas) then Raised
    else Ok(
      SchemaErrors(h, types, schemas)
      + AllTypeErrors(h, types, schemas)
      + BindingErrors(h, types, bindings, definitions))
  }

  const REQUIRED_SECTIONS := {
    Identity, Versioning, Terminology, Navigation, PlannerObjectSchemas, DocumentTypes, DocumentSchemas,
    WorkflowDefinitions, WorkflowBindings, FrameworkBindings, ReportBindings, CapabilityModules,
    IntegrationHints, ProfileStatus}

  /** The JSON schema's demand on the two sections that name a release. */
  predicate NamesRelease(q: Profile) {
    && Get(q, Identity).Obj? && Get(Get(q, Identity).fields, "key").Str?
    && Get(q, Versioning).Obj? && Get(Get(q, Versioning).fields, "version").Str?
  }

  function ProfileKey(q: Profile): string
    requires NamesRelease(q)
  {
    Get(Get(q, Identity).fields, "key").s
  }

  function ProfileVersion(q: Profile): string
    requires NamesRelease(q)
  {
    Get(Get(q, Versioning).fields, "version").s
  }

  /** No semantic, schema or rejection error. */
  predicate Valid(h: Host, q: Profile) {
    && NamesRelease(q)
    && REQUIRED_SECTIONS <= q.Keys
    && !Blank(ProfileKey(q)) && !Blank(ProfileVersion(q))
    && ToS(h, Get(q, ProfileStatus)) in LIFECYCLE_STATES
    && (forall name | name in {Navigation, PlannerObjectSchemas, DocumentTypes, DocumentSchemas} :: Get(q, name).Obj?)
    && ReferenceErrors(h, q) == Ok({})
    && h.schemaOk(q)
  }

  /** `validate_profile_payload`: the normalised profile when it has no error. */
  function Validate(h: Host, payload: Profile): Option<Profile> {
    match Normalize(h, payload)
    case Ok(q) => if Valid(h, q) then Some(q) else None
    case Raised => None
  }

  // ----- a second pass changes nothing

  /** Every default a v3 pass could fill in, apart from the planner objects, is already there. */
  predicate Settled(f: Profile) {
    && Get(f, Versioning).Obj?
    && !IsBlank(Get(Get(f, Versioning).fields, "schema_version"))
    && !IsBlank(Get(Get(f, Versioning).fields, "compatibility"))
    && Truthy(Get(f, Navigation)) && Truthy(Get(f, CapabilityModules)) && Truthy(Get(f, WorkflowBindings))
    && Truthy(Get(f, WorkflowDefinitions)) && Truthy(Get(f, FrameworkBindings))
    && Truthy(Get(f, ReportBindings)) && Truthy(Get(f, IntegrationHints))
  }

  lemma VersioningSettles(f: Profile, schemaVersion: Option<string>, compatibility: string)
    requires schemaVersion.Some? ==> !Blank(schemaVersion.value)
    requires !Blank(compatibility)
    requires FillVersioning(f, schemaVersion, compatibility).Ok?
    ensures f.Keys <= FillVersioning(f, schemaVersion, compatibility).value.Keys
    ensures
      var v := Get(FillVersioning(f, schemaVersion, compatibility).value, Versioning);
      v.Obj? && !IsBlank(Get(v.fields, "schema_version")) && !IsBlank(Get(v.fields, "compatibility"))
  {
    assert "3.0"[0] == '3' && !IsSpace('3');
    assert !Blank("3.0");
  }

  lemma VisibleLiterals()
    ensures !Blank("3.0") && !Blank("v3") && !Blank("v2_only")
  {
    assert "3.0"[0] == '3' && !IsSpace('3');
    assert "v3"[0] == 'v' && "v2_only"[0] == 'v' && !IsSpace('v');
  }

  lemma V3Settles(h: Host, f: Profile)
    requires NormalizeV3(h, f).Ok?
    ensures Settled(NormalizeV3(h, f).value) && f.Keys <= NormalizeV3(h, f).value.Keys
    ensures Truthy(Get(NormalizeV3(h, f).value, PlannerObjectSchemas))
  {
    hide DefaultNavigation, DefaultWorkflowBindings, SynthesizeWorkflowDefinitions, SynthesizeFrameworkBindings,
      SynthesizePlannerObjectSchemas, Blank, FillVersioning, Fill, FillWith, IsBlank, Get;
    VisibleLiterals();
    VersioningSettles(f, None, "v3");
  }

  lemma V2Sections(h: Host, f: Profile)
    requires SynthesizeFromV2(h, f).Ok?
    ensures
      var g := SynthesizeFromV2(h, f).value;
      && Get(g, Versioning) == Get(f, Versioning) && V3Shape(g)
      && Truthy(Get(g, DocumentTypes)) && Truthy(Get(g, DocumentSchemas))
      && Truthy(Get(g, WorkflowBindings)) && Truthy(Get(g, WorkflowDefinitions)) && Truthy(Get(g, FrameworkBindings))
  {
    hide DefaultWorkflowBindings, SynthesizeWorkflowDefinitions, SynthesizeFrameworkBindings,
      SynthesizeDocumentSchemas, SynthesizeDocumentTypes;
  }

  lemma V2Settles(h: Host, f: Profile)
    requires NormalizeV2(h, f).Ok?
    ensures Settled(NormalizeV2(h, f).value)
    ensures V3Shape(NormalizeV2(h, f).value)
  {
    hide DefaultNavigation, SynthesizeFromV2, Blank, FillVersioning, IsBlank, Fill, Get;
    VisibleLiterals();
    VersioningSettles(f, Some("3.0"), "v2_only");
    V2Sections(h, FillVersioning(f, Some("3.0"), "v2_only").value);
  }

  lemma SettledIsFixed(h: Host, f: Profile)
    requires Settled(f) && Truthy(Get(f, PlannerObjectSchemas))
    ensures NormalizeV3(h, f) == Ok(f)
  {
    hide DefaultNavigation, DefaultWorkflowBindings, SynthesizeWorkflowDefinitions, SynthesizeFrameworkBindings,
      SynthesizePlannerObjectSchemas, SynthesizeDocumentSchemas, SynthesizeDocumentTypes, Blank;
    var v := Get(f, Versioning).fields;
    assert v == v["schema_version" := Get(v, "schema_version")];
    assert v == v["compatibility" := Get(v, "compatibility")];
    assert FillVersioning(f, None, "v3").value == f[Versioning := Obj(v)] == f;
  }

  lemma EitherAgain(v: Json, w: Json)
    ensures var r := Either(Either(v, w), Obj(map[])); Either(Either(v, r), Obj(map[])) == r
  {
  }

  lemma LegacyKeysStable(h: Host, f: Profile)
    requires LegacyKeys(h, f).Ok?
    ensures LegacyKeys(h, f).value.Keys == LEGACY_KEYS
    ensures LegacyKeys(h, f + LegacyKeys(h, f).value) == LegacyKeys(h, f)
  {
    hide LegacySections, Dig2, Either, Truthy;
    var legacy := LegacyKeys(h, f).value;
    var g := f + legacy;
    assert legacy.Keys == LEGACY_KEYS;
    assert Get(g, Identity) == Get(f, Identity) && Get(g, Versioning) == Get(f, Versioning);
    assert Get(g, Terminology) == Get(f, Terminology) && Get(g, PlannerObjectSchemas) == Get(f, PlannerObjectSchemas);
    assert Get(g, FrameworkBindings) == Get(f, FrameworkBindings) && Get(g, ReportBindings) == Get(f, ReportBindings);
    EitherAgain(Dig2(Either(Get(f, PlannerObjectSchemas), Obj(map[])), "template", "defaults").value,
      Get(f, TemplateDefaults));
  }

  lemma OverlayLookup(f: Profile, status: Json, legacy: Profile, name: Section)
    requires name !in legacy
    ensures Get(f[ProfileStatus := status] + legacy, name) == if name == ProfileStatus then status else Get(f, name)
  {
  }

  lemma OverlayAgain(f: Profile, status: Json, legacy: Profile)
    requires ProfileStatus !in legacy
    ensures var q := f[ProfileStatus := status] + legacy; q[ProfileStatus := status] == q && q + legacy == q
  {
  }

  lemma NotLegacy()
    ensures LEGACY_KEYS !! REQUIRED_SECTIONS
  {
  }

  lemma OverlaySettled(f: Profile, status: Json, legacy: Profile)
    requires Settled(f) && V3Shape(f) && legacy.Keys == LEGACY_KEYS
    ensures
      var q := f[ProfileStatus := status] + legacy;
      && Settled(q) && V3Shape(q) && Get(q, ProfileStatus) == status
      && Get(q, PlannerObjectSchemas) == Get(f, PlannerObjectSchemas)
      && q[ProfileStatus := status] == q && q + legacy == q
  {
    NotLegacy();
    hide IsBlank, Truthy, Get, LEGACY_KEYS;
    var q := f[ProfileStatus := status] + legacy;
    OverlayAgain(f, status, legacy);
    OverlayLookup(f, status, legacy, Versioning);
    OverlayLookup(f, status, legacy, Navigation);
    OverlayLookup(f, status, legacy, CapabilityModules);
    OverlayLookup(f, status, legacy, WorkflowBindings);
    OverlayLookup(f, status, legacy, WorkflowDefinitions);
    OverlayLookup(f, status, legacy, FrameworkBindings);
    OverlayLookup(f, status, legacy, ReportBindings);
    OverlayLookup(f, status, legacy, IntegrationHints);
    OverlayLookup(f, status, legacy, ProfileStatus);
    OverlayLookup(f, status, legacy, PlannerObjectSchemas);
  }

  lemma StatusStable(h: Host, v: Json)
    ensures NormalizeStatus(h, NormalizeStatus(h, v)) == NormalizeStatus(h, v)
  {
  }

  /** A second pass changes nothing exactly when the first came out with planner objects. */
  lemma FixedIffPlannerPresent(h: Host, p: Profile)
    requires Normalize(h, p).Ok?
    ensures
      var q := Normalize(h, p).value;
      Normalize(h, q) == Ok(q) <==> Truthy(Get(q, PlannerObjectSchemas))
  {
    hide NormalizeV3, NormalizeV2, AdaptV1, LegacyKeys, NormalizeStatus, Settled, Truthy, Get;
    var f := Reshape(h, p).value;
    var status := NormalizeStatus(h, Get(f, ProfileStatus));
    var g := f[ProfileStatus := status];
    var legacy := LegacyKeys(h, g).value;
    var q := g + legacy;
    ReshapeSettles(h, p);
    LegacyKeysStable(h, g);
    StatusStable(h, Get(f, ProfileStatus));
    OverlaySettled(f, status, legacy);
    if Truthy(Get(q, PlannerObjectSchemas)) {
      SettledIsFixed(h, q);
    } else if NormalizeV3(h, q).Ok? {
      SecondPassAddsPlanner(h, q);
    }
  }

  /** A profile is given planner objects, or brings its own, unless it is a v2 profile without any. */
  predicate BringsPlanner(p: Profile) {
    V3Shape(p) || !V2Shape(p) || Truthy(Get(p, PlannerObjectSchemas))
  }

  /** Normalisation is idempotent exactly on these: a v2 profile without planner objects gets none on
      the first pass and synthesised ones on the second. */
  lemma IdempotentIff(h: Host, p: Profile)
    requires Normalize(h, p).Ok?
    ensures Normalize(h, Normalize(h, p).value) == Normalize(h, p) <==> BringsPlanner(p)
  {
    hide *;
    NormalizedPlanner(h, p);
    FixedIffPlannerPresent(h, p);
    ReshapePlanner(h, p);
  }

  lemma NormalizedPlanner(h: Host, p: Profile)
    requires Normalize(h, p).Ok?
    ensures Reshape(h, p).Ok?
        && Get(Normalize(h, p).value, PlannerObjectSchemas) == Get(Reshape(h, p).value, PlannerObjectSchemas)
  {
    hide Reshape, LegacyKeys, NormalizeStatus, Get;
    var f := Reshape(h, p).value;
    var status := NormalizeStatus(h, Get(f, ProfileStatus));
    LegacyKeysStable(h, f[ProfileStatus := status]);
    OverlayLookup(f, status, LegacyKeys(h, f[ProfileStatus := status]).value, PlannerObjectSchemas);
  }

  lemma V2KeepsPlanner(h: Host, f: Profile)
    requires NormalizeV2(h, f).Ok?
    ensures Get(NormalizeV2(h, f).value, PlannerObjectSchemas) == Get(f, PlannerObjectSchemas)
  {
    hide DefaultNavigation, SynthesizeFromV2, PresentOr, HashOrEmpty;
    SynthesisUntouched(h, FillVersioning(f, Some("3.0"), "v2_only").value);
  }

  lemma V1HasPlanner(h: Host, f: Profile)
    requires AdaptV1(h, f).Ok?
    ensures Truthy(Get(AdaptV1(h, f).value, PlannerObjectSchemas))
  {
    hide DefaultNavigation, Strings, LabelOr, Field, WithOptions, ToS, ToArray, Either;
  }

  lemma ReshapePlanner(h: Host, f: Profile)
    requires Reshape(h, f).Ok?
    ensures Truthy(Get(Reshape(h, f).value, PlannerObjectSchemas)) <==> BringsPlanner(f)
  {
    hide NormalizeV3, NormalizeV2, AdaptV1, Truthy, Get;
    if V3Shape(f) {
      V3Settles(h, f);
    } else if V2Shape(f) {
      V2KeepsPlanner(h, f);
    } else {
      V1HasPlanner(h, f);
      V2KeepsPlanner(h, AdaptV1(h, f).value);
    }
  }

  lemma SecondPassAddsPlanner(h: Host, q: Profile)
    requires V3Shape(q) && !Truthy(Get(q, PlannerObjectSchemas))
    ensures Normalize(h, q) != Ok(q)
  {
    hide Normalize, Reshape, Truthy, Get;
    if Normalize(h, q).Ok? {
      NormalizedPlanner(h, q);
      ReshapePlanner(h, q);
    }
  }

  /** The simplest v2 profile on which a second pass differs from the first. */
  lemma BareV2NotIdempotent(h: Host)
    ensures Normalize(h, BARE_V2).Ok? && Normalize(h, Normalize(h, BARE_V2).value) != Normalize(h, BARE_V2)
  {
    BareV2Normalizes(h);
    hide BARE_V2, Normalize;
    FixedIffPlannerPresent(h, BARE_V2);
  }

  lemma EmptySchemas(h: Host)
    ensures SynthesizeDocumentSchemas(h, Null).Ok?
  {
    var planner := Obj(map[]);
    forall documentType ensures LegacyDocumentSchema(h, planner, documentType).Ok? {
      assert Dig2(planner, documentType, "fields") == Ok(Null);
    }
    hide LegacyDocumentSchema;
  }

  lemma BareFrameworks(h: Host, f: Profile)
    requires Get(f, FrameworkBindings) == Null && Get(f, FrameworkDefaults) == Null && Get(f, ReportBindings) == Null
    ensures SynthesizeFrameworkBindings(h, f).Ok?
  {
    hide Strings, Uniq, StrArr, PresentOr, ToArray, Get;
  }

  lemma BareV2Synthesizes(h: Host, f: Profile)
    requires Get(f, PlannerObjectSchemas) == Null && Get(f, WorkflowBindings) == Null
    requires Get(f, FrameworkBindings) == Null && Get(f, FrameworkDefaults) == Null && Get(f, ReportBindings) == Null
    ensures SynthesizeFromV2(h, f).Ok?
  {
    EmptySchemas(h);
    BareFrameworks(h, f);
    BareWorkflows(h, SynthesizeDocumentTypes(h, SynthesizeDocumentSchemas(h, Null).value));
    hide SynthesizeDocumentSchemas, SynthesizeDocumentTypes, DefaultWorkflowBindings, SynthesizeWorkflowDefinitions,
      SynthesizeFrameworkBindings, Get;
  }

  lemma SynthesisUntouched(h: Host, f: Profile)
    requires SynthesizeFromV2(h, f).Ok?
    ensures
      var g := SynthesizeFromV2(h, f).value;
      && Get(g, PlannerObjectSchemas) == Get(f, PlannerObjectSchemas)
      && Get(g, ReportBindings) == Get(f, ReportBindings)
      && Get(g, Identity) == Get(f, Identity) && Get(g, Versioning) == Get(f, Versioning)
      && Get(g, Terminology) == Get(f, Terminology) && Get(g, FrameworkBindings).Obj?
  {
    hide SynthesizeDocumentSchemas, SynthesizeDocumentTypes, DefaultWorkflowBindings, SynthesizeWorkflowDefinitions,
      SynthesizeFrameworkBindings;
  }

  lemma BareWorkflows(h: Host, types: Fields)
    ensures DefaultWorkflowBindings(Obj(types)).Ok?
    ensures SynthesizeWorkflowDefinitions(h, DefaultWorkflowBindings(Obj(types)).value).Ok?
  {
    hide DefaultWorkflowKey, WorkflowTemplate, ToS;
  }

  lemma BareSectionsLegible(h: Host, identity: Json, versioning: Json, frameworkBindings: Json)
    requires identity.Obj? && versioning.Obj? && frameworkBindings.Obj?
    ensures LegacySections(h, identity, versioning, Obj(map[]), Obj(map[]), frameworkBindings, Obj(map[])).Ok?
  {
    BareFields(h);
    hide Strings, Either, Get, OptionsOf, ToArray, Dig2;
  }

  lemma BareFields(h: Host)
    ensures Dig2(Obj(map[]), "unit_plan", "fields") == Ok(Null) && Dig2(Obj(map[]), "template", "tags") == Ok(Null)
    ensures Dig2(Obj(map[]), "template", "defaults") == Ok(Null)
    ensures ToArray(h, Null) == []
    ensures OptionsOf(h, [], "subject").Ok? && OptionsOf(h, [], "grade_or_stage").Ok?
    ensures Dig(Obj(map[]), "standards_coverage") == Ok(Null)
  {
    hide Strings;
  }

  lemma FillsUntouched(h: Host, f: Profile, g: Profile)
    requires NormalizeV2(h, f).Ok?
    requires g == SynthesizeFromV2(h, FillVersioning(f, Some("3.0"), "v2_only").value).value
    requires Get(g, ReportBindings) == Null && Get(g, FrameworkBindings).Obj?
    ensures
      var q := NormalizeV2(h, f).value;
      && Get(q, ReportBindings) == Obj(map[]) && Get(q, FrameworkBindings).Obj?
      && Get(q, PlannerObjectSchemas) == Get(g, PlannerObjectSchemas)
      && Get(q, Identity) == Get(g, Identity) && Get(q, Versioning) == Get(g, Versioning)
      && Get(q, Terminology) == Get(g, Terminology)
  {
    hide DefaultNavigation, SynthesizeFromV2, FillVersioning;
  }

  lemma BareVersioning()
    ensures
      var r := FillVersioning(BARE_V2, Some("3.0"), "v2_only");
      r.Ok? && Get(r.value, Versioning).Obj? && Get(r.value, Identity).Obj?
      && forall n | n != Identity && n != Versioning :: Get(r.value, n) == Null
  {
  }

  const BARE_V2: Profile := map[Identity := Obj(map[]), Versioning := Obj(map[])]

  predicate Legible(q: Profile) {
    && Get(q, Identity).Obj? && Get(q, Versioning).Obj? && Get(q, FrameworkBindings).Obj?
    && Get(q, Terminology) == Null && Get(q, PlannerObjectSchemas) == Null && Get(q, ReportBindings) == Obj(map[])
  }

  lemma BareV2Lifts(h: Host)
    ensures NormalizeV2(h, BARE_V2).Ok? && Legible(NormalizeV2(h, BARE_V2).value)
  {
    BareVersioning();
    hide FillVersioning;
    var f := FillVersioning(BARE_V2, Some("3.0"), "v2_only").value;
    BareV2Synthesizes(h, f);
    SynthesisUntouched(h, f);
    LiftSucceeds(h, BARE_V2);
    hide SynthesizeFromV2, NormalizeV2, Get, BARE_V2;
    FillsUntouched(h, BARE_V2, SynthesizeFromV2(h, f).value);
  }

  lemma LiftSucceeds(h: Host, f: Profile)
    requires
      var filled := FillVersioning(f, Some("3.0"), "v2_only");
      filled.Ok? && SynthesizeFromV2(h, filled.value).Ok?
    ensures NormalizeV2(h, f).Ok?
  {
    hide FillVersioning, SynthesizeFromV2, DefaultNavigation, Get;
  }

  lemma BareLegacyKeys(h: Host, g: Profile)
    requires Legible(g)
    ensures LegacyKeys(h, g).Ok?
  {
    BareFields(h);
    BareSectionsLegible(h, Get(g, Identity), Get(g, Versioning), Get(g, FrameworkBindings));
    hide LegacySections, Dig2, Get;
  }

  lemma LegibleNormalizes(h: Host, p: Profile)
    requires V2Shape(p) && !V3Shape(p) && NormalizeV2(h, p).Ok? && Legible(NormalizeV2(h, p).value)
    ensures Normalize(h, p).Ok? && Get(Normalize(h, p).value, PlannerObjectSchemas) == Null
  {
    hide NormalizeV2, NormalizeV3, AdaptV1, NormalizeStatus, LegacyKeys, V2Shape, V3Shape;
    var q := NormalizeV2(h, p).value;
    var status := NormalizeStatus(h, Get(q, ProfileStatus));
    var g := q[ProfileStatus := status];
    assert Legible(g);
    hide Legible, Get;
    BareLegacyKeys(h, g);
    LegacyKeysStable(h, g);
    assert PlannerObjectSchemas !in LEGACY_KEYS;
    hide LEGACY_KEYS;
    OverlayLookup(q, status, LegacyKeys(h, g).value, PlannerObjectSchemas);
    LegiblePlanner(q);
  }

  lemma LegiblePlanner(q: Profile)
    ensures Legible(q) ==> Get(q, PlannerObjectSchemas) == Null
  {
  }

  lemma BareV2Normalizes(h: Host)
    ensures Normalize(h, BARE_V2).Ok? && Get(Normalize(h, BARE_V2).value, PlannerObjectSchemas) == Null
  {
    assert V2Shape(BARE_V2) && !V3Shape(BARE_V2);
    BareV2Lifts(h);
    hide *;
    LegibleNormalizes(h, BARE_V2);
  }

  lemma ReshapeSettles(h: Host, f: Profile)
    requires Reshape(h, f).Ok?
    ensures Settled(Reshape(h, f).value) && V3Shape(Reshape(h, f).value)
  {
    hide NormalizeV3, NormalizeV2, AdaptV1, Settled;
    if V3Shape(f) {
      V3Settles(h, f);
    } else if V2Shape(f) {
      V2Settles(h, f);
    } else {
      V2Settles(h, AdaptV1(h, f).value);
    }
  }

  /** A payload that passed validation is stored in a form validation returns unchanged. */
  lemma ValidatedIsFixed(h: Host, payload: Profile)
    requires Validate(h, payload).Some?
    ensures Validate(h, Validate(h, payload).value) == Validate(h, payload)
  {
    FixedIffPlannerPresent(h, payload);
  }

  // ----- some payload passes validation

  const EMPTY := Obj(map[])

  /** A v3 profile with every section there and nothing in it but a key and a version. */
  function Smallest(key: string, version: string): Profile {
    map[
      Identity := Obj(map["key" := Str(key)]),
      Versioning := Obj(map["version" := Str(version), "schema_version" := Str("3.0"), "compatibility" := Str("v3")]),
      Terminology := EMPTY, Navigation := EMPTY, PlannerObjectSchemas := EMPTY,
      DocumentTypes := EMPTY, DocumentSchemas := EMPTY, WorkflowDefinitions := EMPTY, WorkflowBindings := EMPTY,
      FrameworkBindings := EMPTY, ReportBindings := EMPTY, CapabilityModules := EMPTY,
      IntegrationHints := EMPTY, ProfileStatus := Str("active")]
  }

  /** What is used of it. */
  predicate Bare(f: Profile, key: string, version: string) {
    && Get(f, Identity) == Obj(map["key" := Str(key)])
    && Get(f, Versioning).Obj? && Get(Get(f, Versioning).fields, "version") == Str(version)
    && (forall name | name in REQUIRED_SECTIONS - {Identity, Versioning, ProfileStatus} ::
        name in f && f[name] == EMPTY)
    && Get(f, ProfileStatus) == Str("active") && Identity in f && Versioning in f && ProfileStatus in f
  }

  lemma SmallestSettled(key: string, version: string)
    ensures Settled(Smallest(key, version)) && V3Shape(Smallest(key, version))
  {
    VisibleLiterals();
    hide Blank;
  }

  lemma SmallestBare(key: string, version: string)
    ensures Bare(Smallest(key, version), key, version)
  {
    hide Blank;
  }

  lemma BareNormalizes(h: Host, f: Profile, key: string, version: string)
    requires Settled(f) && V3Shape(f) && Bare(f, key, version)
    ensures LegacyKeys(h, f).Ok? && Normalize(h, f) == Ok(f + LegacyKeys(h, f).value)
  {
    BareSections(f, key, version);
    SettledIsFixed(h, f);
    BareLegacy(h, f);
    ActiveStays(h);
    hide NormalizeV3, LegacyKeys, Settled, Bare, Get, NormalizeStatus;
    assert f[ProfileStatus := Get(f, ProfileStatus)] == f by { StatusThere(f); }
  }

  lemma StatusThere(f: Profile)
    requires ProfileStatus in f
    ensures f[ProfileStatus := Get(f, ProfileStatus)] == f
  {
  }

  lemma ActiveStays(h: Host)
    ensures NormalizeStatus(h, Str("active")) == Str("active")
  {
  }

  lemma BareSections(f: Profile, key: string, version: string)
    requires Bare(f, key, version)
    ensures Truthy(Get(f, PlannerObjectSchemas)) && ProfileStatus in f && Get(f, ProfileStatus) == Str("active")
    ensures Get(f, Identity).Obj? && Get(f, Versioning).Obj? && Get(f, FrameworkBindings) == EMPTY
    ensures Get(f, Terminology) == Get(f, PlannerObjectSchemas) == Get(f, ReportBindings) == EMPTY
  {
  }

  lemma BareLegacy(h: Host, f: Profile)
    requires Get(f, Identity).Obj? && Get(f, Versioning).Obj? && Get(f, FrameworkBindings) == EMPTY
    requires Get(f, Terminology) == Get(f, PlannerObjectSchemas) == Get(f, ReportBindings) == EMPTY
    ensures LegacyKeys(h, f).Ok?
  {
    BareFields(h);
    BareSectionsLegible(h, Get(f, Identity), Get(f, Versioning), Get(f, FrameworkBindings));
    hide LegacySections, Dig2, Get;
  }

  lemma BareReferences(h: Host, f: Profile, key: string, version: string)
    requires Bare(f, key, version)
    ensures ReferenceErrors(h, f) == Ok({})
  {
    hide DocumentTypeOf, ToS, Blank, AllowedKeys;
    assert Get(f, DocumentTypes) == Get(f, DocumentSchemas) == EMPTY;
    assert Get(f, WorkflowBindings) == Get(f, WorkflowDefinitions) == EMPTY;
    assert SchemaErrors(h, map[], map[]) == {} && AllTypeErrors(h, map[], map[]) == {}
        && BindingErrors(h, map[], map[], map[]) == {};
  }

  lemma OverlaidBareValid(h: Host, f: Profile, legacy: Profile, key: string, version: string)
    requires Bare(f, key, version) && legacy.Keys == LEGACY_KEYS && ReferenceErrors(h, f + legacy) == Ok({})
    requires !Blank(key) && !Blank(version) && h.schemaOk(f + legacy)
    ensures Valid(h, f + legacy) && ProfileKey(f + legacy) == key && ProfileVersion(f + legacy) == version
  {
    NotLegacy();
    hide ReferenceErrors, Blank, LEGACY_KEYS;
    assert forall name | name in REQUIRED_SECTIONS && name !in legacy ::
        name in f + legacy && (f + legacy)[name] == f[name];
  }

  /** Under any schema and rejection rules that let it through, the smallest profile of any key and
      version validates, so validated payloads, imported rows and published releases exist. */
  lemma SmallestValidates(h: Host, key: string, version: string)
    requires !Blank(key) && !Blank(version) && forall q :: h.schemaOk(q)
    ensures
      var q := Validate(h, Smallest(key, version));
      q.Some? && NamesRelease(q.value) && ProfileKey(q.value) == key && ProfileVersion(q.value) == version
  {
    hide Normalize, LegacyKeys, Bare, Settled, Smallest, ReferenceErrors, Blank, V3Shape, Get;
    var f := Smallest(key, version);
    SmallestSettled(key, version);
    SmallestBare(key, version);
    BareNormalizes(h, f, key, version);
    LegacyKeysStable(h, f);
    var legacy := LegacyKeys(h, f).value;
    BareReferences(h, f, key, version);
    BareStatus(f, key, version);
    OverlayReferences(h, f, Str("active"), legacy);
    OverlaidBareValid(h, f, legacy, key, version);
    hide Valid, ProfileKey, ProfileVersion;
    assert NamesRelease(f + legacy) by { ValidNamesRelease(h, f + legacy); }
  }

  lemma BareStatus(f: Profile, key: string, version: string)
    requires Bare(f, key, version)
    ensures f[ProfileStatus := Str("active")] == f
  {
  }

  lemma ValidNamesRelease(h: Host, q: Profile)
    requires Valid(h, q)
    ensures NamesRelease(q)
  {
    hide ReferenceErrors;
  }

  // ----- the synthesised sections refer to one another consistently

  /** The synthesised document types are the inverse of `document_type` on the schemas: a type is
      listed iff some schema names it, and lists exactly those schemas, in order, the least as default. */
  lemma TypesInvertSchemas(h: Host, schemas: map<string, Fields>, t: string)
    ensures
      var types := SynthesizeDocumentTypes(h, schemas);
      var keys := SchemaKeysFor(h, schemas, t);
      && (t in types <==> !Blank(t) && keys != {})
      && (t in types ==>
           types[t].Obj?
           && Get(types[t].fields, "allowed_schema_keys") == StrArr(Sorted(keys))
           && AllowedKeys(h, types[t].fields) == keys
           && Get(types[t].fields, "default_schema_key") == Str(Sorted(keys)[0])
           && Sorted(keys)[0] in keys && forall k | k in keys :: StringLeq(Sorted(keys)[0], k))
  {
    var types := SynthesizeDocumentTypes(h, schemas);
    var keys := SchemaKeysFor(h, schemas, t);
    if keys != {} {
      var k :| k in keys;
      assert k in schemas && DocumentTypeOf(h, schemas[k]) == t;
    }
    if t in types {
      var k :| k in schemas && DocumentTypeOf(h, schemas[k]) == t;
      assert k in keys;
      EntryKeys(h, t, keys);
    }
  }

  lemma EntryKeys(h: Host, t: string, keys: set<string>)
    requires keys != {}
    ensures
      var entry := DocumentTypeEntry(h, t, keys);
      && entry.Obj?
      && Get(entry.fields, "allowed_schema_keys") == StrArr(Sorted(keys))
      && AllowedKeys(h, entry.fields) == keys
      && Get(entry.fields, "default_schema_key") == Str(Sorted(keys)[0])
      && forall k | k in keys :: StringLeq(Sorted(keys)[0], k)
  {
    EntryLookup(h, t, keys);
    hide StringLeq, DocumentTypeEntry, StrArr;
    var sorted := Sorted(keys);
    StrArrKeys(h, sorted);
    forall k | k in keys ensures StringLeq(sorted[0], k) {
      var i :| 0 <= i < |sorted| && sorted[i] == k;
    }
  }

  lemma EntryLookup(h: Host, t: string, keys: set<string>)
    requires keys != {}
    ensures
      var entry := DocumentTypeEntry(h, t, keys);
      && entry.Obj?
      && Get(entry.fields, "allowed_schema_keys") == StrArr(Sorted(keys))
      && Get(entry.fields, "default_schema_key") == Str(Sorted(keys)[0])
  {
    hide StringLeq, StrArr, Sorted;
  }

  lemma StrArrKeys(h: Host, ss: seq<string>)
    ensures
      var items := ToArray(h, StrArr(ss));
      (set i | 0 <= i < |items| :: ToS(h, items[i])) == set i | 0 <= i < |ss| :: ss[i]
  {
    var items := ToArray(h, StrArr(ss));
    assert |items| == |ss| && forall i | 0 <= i < |ss| :: ToS(h, items[i]) == ss[i];
  }

  lemma SynthesizedTypesConsistent(h: Host, schemas: map<string, Fields>)
    requires forall k | k in schemas :: !Blank(k) && !Blank(DocumentTypeOf(h, schemas[k]))
    ensures
      var types := SynthesizeDocumentTypes(h, schemas);
      var objects: Fields := map k | k in schemas :: Obj(schemas[k]);
      && AllObjects(types) && AllObjects(objects)
      && SchemaErrors(h, types, objects) == {}
      && forall t | t in types :: TypeErrors(h, t, types[t].fields, objects) == {}
  {
    hide Blank, SynthesizeDocumentTypes, DocumentTypeOf, TypeErrors, Get, StringLeq;
    var types := SynthesizeDocumentTypes(h, schemas);
    var objects: Fields := map k | k in schemas :: Obj(schemas[k]);
    forall t | t in types
      ensures types[t].Obj? && TypeErrors(h, t, types[t].fields, objects) == {}
    {
      TypesInvertSchemas(h, schemas, t);
      EntryConsistent(h, t, types[t].fields, objects, Sorted(SchemaKeysFor(h, schemas, t))[0]);
    }
    forall k | k in schemas ensures DocumentTypeOf(h, schemas[k]) in types {
      TypesInvertSchemas(h, schemas, DocumentTypeOf(h, schemas[k]));
      assert k in SchemaKeysFor(h, schemas, DocumentTypeOf(h, schemas[k]));
    }
  }

  lemma EntryConsistent(h: Host, t: string, definition: Fields, schemas: Fields, default: string)
    requires Get(definition, "default_schema_key") == Str(default)
    requires default in AllowedKeys(h, definition) && AllowedKeys(h, definition) <= schemas.Keys
    requires !Blank(default)
    ensures TypeErrors(h, t, definition, schemas) == {}
  {
    hide Blank, AllowedKeys, Get;
  }

  lemma LegacyNamesVisible()
    ensures !Blank("unit_plan") && !Blank("lesson_plan") && !Blank("template")
    ensures !Blank("unit_plan@v1") && !Blank("lesson_plan@v1") && !Blank("template@v1")
  {
    assert "unit_plan"[0] == "unit_plan@v1"[0] == 'u' && !IsSpace('u');
    assert "lesson_plan"[0] == "lesson_plan@v1"[0] == 'l' && !IsSpace('l');
    assert "template"[0] == "template@v1"[0] == 't' && !IsSpace('t');
  }

  lemma LegacySchemasNamed(h: Host, planner: Json)
    requires SynthesizeDocumentSchemas(h, planner).Ok?
    ensures
      var schemas := SynthesizeDocumentSchemas(h, planner).value;
      && schemas.Keys == {"unit_plan@v1", "lesson_plan@v1", "template@v1"}
      && DocumentTypeOf(h, schemas["unit_plan@v1"]) == "unit_plan"
      && DocumentTypeOf(h, schemas["lesson_plan@v1"]) == "lesson_plan"
      && DocumentTypeOf(h, schemas["template@v1"]) == "template"
  {
    LegacySchemaType(h, Either(planner, Obj(map[])), "unit_plan");
    LegacySchemaType(h, Either(planner, Obj(map[])), "lesson_plan");
    LegacySchemaType(h, Either(planner, Obj(map[])), "template");
    hide LegacyDocumentSchema, DocumentTypeOf, Either;
  }

  lemma ThreeSchemas(h: Host, schemas: map<string, Fields>, a: string, b: string, c: string,
    ta: string, tb: string, tc: string)
    requires schemas.Keys == {a, b, c} && !Blank(a) && !Blank(b) && !Blank(c)
    requires DocumentTypeOf(h, schemas[a]) == ta && DocumentTypeOf(h, schemas[b]) == tb
        && DocumentTypeOf(h, schemas[c]) == tc
    requires !Blank(ta) && !Blank(tb) && !Blank(tc)
    ensures forall k | k in schemas :: !Blank(k) && !Blank(DocumentTypeOf(h, schemas[k]))
    ensures (set k | k in schemas :: DocumentTypeOf(h, schemas[k])) == {ta, tb, tc}
  {
    hide DocumentTypeOf, Blank;
    assert a in schemas && b in schemas && c in schemas;
  }

  lemma LegacySchemaFacts(h: Host, planner: Json)
    requires SynthesizeDocumentSchemas(h, planner).Ok?
    ensures
      var schemas := SynthesizeDocumentSchemas(h, planner).value;
      && (forall k | k in schemas :: !Blank(k) && !Blank(DocumentTypeOf(h, schemas[k])))
      && (set k | k in schemas :: DocumentTypeOf(h, schemas[k])) == LEGACY_TYPES
  {
    hide Blank, DocumentTypeOf, SynthesizeDocumentSchemas, LegacyDocumentSchema;
    LegacySchemasNamed(h, planner);
    LegacyNamesVisible();
    ThreeSchemas(h, SynthesizeDocumentSchemas(h, planner).value, "unit_plan@v1", "lesson_plan@v1", "template@v1",
      "unit_plan", "lesson_plan", "template");
  }

  lemma LegacySchemaType(h: Host, planner: Json, t: string)
    requires LegacyDocumentSchema(h, planner, t).Ok?
    ensures DocumentTypeOf(h, LegacyDocumentSchema(h, planner, t).value) == t
  {
  }

  /** The bindings of a profile that name a document type the legacy layouts do not have. */
  function UnknownBindings(f: Profile): set<ReferenceError> {
    if Get(f, WorkflowBindings).Obj? then UnknownTypes(Get(f, WorkflowBindings).fields, LEGACY_TYPES) else {}
  }

  function UnknownTypes(bindings: Fields, known: set<string>): set<ReferenceError> {
    set t | t in bindings && t !in known :: BindingTypeUnknown(t)
  }

  lemma BindingsDefined(h: Host, types: Fields, bindings: Fields, definitions: Fields)
    requires definitions.Keys == set t | t in bindings :: ToS(h, bindings[t])
    ensures BindingErrors(h, types, bindings, definitions) == UnknownTypes(bindings, types.Keys)
  {
    hide ToS;
  }

  lemma AssembleReferences(h: Host, f: Profile, types: Fields, schemas: Fields, bindings: Fields, definitions: Fields)
    requires Get(f, DocumentTypes) == Obj(types) && Get(f, DocumentSchemas) == Obj(schemas)
    requires Get(f, WorkflowBindings) == Obj(bindings) && Get(f, WorkflowDefinitions) == Obj(definitions)
    requires AllObjects(types) && AllObjects(schemas) && SchemaErrors(h, types, schemas) == {}
    requires forall t | t in types :: TypeErrors(h, t, types[t].fields, schemas) == {}
    ensures ReferenceErrors(h, f) == Ok(BindingErrors(h, types, bindings, definitions))
  {
    hide Get, TypeErrors, SchemaErrors, BindingErrors;
    var dangling := BindingErrors(h, types, bindings, definitions);
    assert SchemaErrors(h, types, schemas) + AllTypeErrors(h, types, schemas) + dangling == dangling;
  }

  lemma SynthesizedReferences(h: Host, f: Profile)
    requires SynthesizeFromV2(h, f).Ok?
    ensures ReferenceErrors(h, SynthesizeFromV2(h, f).value) == Ok(UnknownBindings(f))
  {
    SynthesizedSections(h, f);
    var planner := Get(f, PlannerObjectSchemas);
    LegacySchemaFacts(h, planner);
    hide SynthesizeFromV2, SynthesizeDocumentSchemas, SynthesizeDocumentTypes, Blank, TypeErrors, SchemaErrors, ToS,
      BindingErrors, ReferenceErrors, DocumentTypeOf, AllObjects, LEGACY_TYPES, UnknownTypes, Get, Truthy;
    var schemas := SynthesizeDocumentSchemas(h, planner).value;
    var types := SynthesizeDocumentTypes(h, schemas);
    SynthesizedTypesConsistent(h, schemas);
    LegacyTypesListed(h, schemas);
    var g := SynthesizeFromV2(h, f).value;
    var bindings := Get(g, WorkflowBindings).fields;
    var definitions := Get(g, WorkflowDefinitions).fields;
    BindingsDefined(h, types, bindings, definitions);
    AssembleReferences(h, g, types, map k | k in schemas :: Obj(schemas[k]), bindings, definitions);
    NoneUnknown(types.Keys, types);
    FalsyNotHash(Get(f, WorkflowBindings));
  }

  lemma NoneUnknown(known: set<string>, bindings: Fields)
    requires bindings.Keys <= known
    ensures UnknownTypes(bindings, known) == {}
  {
  }

  lemma FalsyNotHash(v: Json)
    ensures !Truthy(v) ==> !v.Obj?
  {
  }

  lemma SynthesizedSections(h: Host, f: Profile)
    requires SynthesizeFromV2(h, f).Ok?
    ensures
      var schemas := SynthesizeDocumentSchemas(h, Get(f, PlannerObjectSchemas)).value;
      var types := SynthesizeDocumentTypes(h, schemas);
      var g := SynthesizeFromV2(h, f).value;
      && Get(g, DocumentTypes) == Obj(types)
      && Get(g, DocumentSchemas) == Obj(map k | k in schemas :: Obj(schemas[k]))
      && Get(g, WorkflowBindings).Obj? && Get(g, WorkflowDefinitions).Obj?
      && Get(g, WorkflowDefinitions).fields.Keys
         == (set t | t in Get(g, WorkflowBindings).fields :: ToS(h, Get(g, WorkflowBindings).fields[t]))
      && (if Truthy(Get(f, WorkflowBindings)) then Get(g, WorkflowBindings) == Get(f, WorkflowBindings)
          else Get(g, WorkflowBindings).fields.Keys == types.Keys)
  {
    hide SynthesizeDocumentSchemas, SynthesizeDocumentTypes, SynthesizeFrameworkBindings, DefaultWorkflowKey,
      WorkflowTemplate, ToS;
  }

  lemma LegacyTypesListed(h: Host, schemas: map<string, Fields>)
    requires forall k | k in schemas :: !Blank(DocumentTypeOf(h, schemas[k]))
    requires (set k | k in schemas :: DocumentTypeOf(h, schemas[k])) == LEGACY_TYPES
    ensures SynthesizeDocumentTypes(h, schemas).Keys == LEGACY_TYPES
  {
    hide Blank, DocumentTypeOf;
  }

  /** A v1 or v2 profile comes out with no dangling reference except, for a v2 profile, the
      workflow bindings it supplied for document types other than the three legacy ones. */
  lemma LiftedReferences(h: Host, p: Profile)
    requires !V3Shape(p) && Normalize(h, p).Ok?
    ensures
      ReferenceErrors(h, Normalize(h, p).value) == Ok(if V2Shape(p) then UnknownBindings(p) else {})
  {
    hide NormalizeV2, AdaptV1, UnknownBindings, ReferenceErrors, V3Shape, V2Shape, Get;
    NormalizedReferences(h, p);
    if V2Shape(p) {
      LiftedFromV2(h, p);
    } else {
      V1Bindings(h, p);
      LiftedFromV2(h, AdaptV1(h, p).value);
    }
  }

  lemma LiftedFromV2(h: Host, source: Profile)
    requires NormalizeV2(h, source).Ok?
    ensures ReferenceErrors(h, NormalizeV2(h, source).value) == Ok(UnknownBindings(source))
  {
    KeepsReferences(h, source);
    hide SynthesizeFromV2, ReferenceErrors, DefaultNavigation, HashOrEmpty, UnknownTypes;
    var f := FillVersioning(source, Some("3.0"), "v2_only").value;
    SynthesizedReferences(h, f);
    assert Get(f, WorkflowBindings) == Get(source, WorkflowBindings);
  }

  lemma NormalizedReferences(h: Host, p: Profile)
    requires Normalize(h, p).Ok?
    ensures Reshape(h, p).Ok? && ReferenceErrors(h, Normalize(h, p).value) == ReferenceErrors(h, Reshape(h, p).value)
  {
    hide Reshape, LegacyKeys, NormalizeStatus, Get, ReferenceErrors;
    var f := Reshape(h, p).value;
    var status := NormalizeStatus(h, Get(f, ProfileStatus));
    LegacyKeysStable(h, f[ProfileStatus := status]);
    OverlayReferences(h, f, status, LegacyKeys(h, f[ProfileStatus := status]).value);
  }

  lemma V1Bindings(h: Host, p: Profile)
    requires AdaptV1(h, p).Ok?
    ensures UnknownBindings(AdaptV1(h, p).value) == {}
  {
    hide DefaultNavigation, Strings, LabelOr, Field, WithOptions, ToS, ToArray, Either;
  }

  lemma SameReferences(h: Host, f: Profile, g: Profile)
    requires Get(f, DocumentTypes) == Get(g, DocumentTypes) && Get(f, DocumentSchemas) == Get(g, DocumentSchemas)
    requires Get(f, WorkflowBindings) == Get(g, WorkflowBindings)
    requires Get(f, WorkflowDefinitions) == Get(g, WorkflowDefinitions)
    ensures ReferenceErrors(h, f) == ReferenceErrors(h, g)
  {
    hide Get, AllObjects, TypeErrors, SchemaErrors, BindingErrors, HashOrEmpty;
  }

  lemma KeepsReferences(h: Host, source: Profile)
    requires NormalizeV2(h, source).Ok?
    ensures
      var f := FillVersioning(source, Some("3.0"), "v2_only").value;
      ReferenceErrors(h, NormalizeV2(h, source).value) == ReferenceErrors(h, SynthesizeFromV2(h, f).value)
  {
    var f := FillVersioning(source, Some("3.0"), "v2_only").value;
    V2Sections(h, f);
    hide FillVersioning, SynthesizeFromV2, DefaultNavigation, Fill, ReferenceErrors, Get, Truthy;
    SameReferences(h, SynthesizeFromV2(h, f).value, NormalizeV2(h, source).value);
  }

  lemma OverlayReferences(h: Host, f: Profile, status: Json, legacy: Profile)
    requires legacy.Keys == LEGACY_KEYS
    ensures ReferenceErrors(h, f[ProfileStatus := status] + legacy) == ReferenceErrors(h, f)
  {
    OverlayLookup(f, status, legacy, DocumentTypes);
    OverlayLookup(f, status, legacy, DocumentSchemas);
    OverlayLookup(f, status, legacy, WorkflowBindings);
    OverlayLookup(f, status, legacy, WorkflowDefinitions);
    SameReferences(h, f[ProfileStatus := status] + legacy, f);
  }
}
