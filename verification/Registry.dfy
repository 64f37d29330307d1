/** Curriculum profiles as JSON documents: the v1/v2/v3 normaliser, the semantic checks on
    document references, and lookup among the packs shipped with the system. */
module Registry {
  import opened Wrappers
  import opened Text

  // ----- JSON values with Ruby's reading of them

  datatype Json =
    | Null
    | Bool(b: bool)
    | Num(text: string)  // a number, held as the text `to_s` gives for it
    | Str(s: string)
    | Arr(items: seq<Json>)
    | Obj(fields: Fields)

  type Fields = map<string, Json>

  /** What the code takes from Ruby and its libraries without this model looking inside. */
  datatype Host = Host(
    inspect: Json -> string,       // `to_s` of an array or a hash
    pairs: Fields -> seq<Json>,    // `Array(hash)`
    humanize: string -> string,    // ActiveSupport's `humanize`
    schemaOk: Profile -> bool      // the JSON schema and the content rejection rules
  )

  /** The top level of a profile, keyed by the names the code knows; `Other` is any further key. */
  datatype Section =
    | Identity | Versioning | Terminology | Navigation | PlannerObjectSchemas | DocumentTypes
    | DocumentSchemas | WorkflowDefinitions | WorkflowBindings | FrameworkBindings | ReportBindings
    | CapabilityModules | IntegrationHints | ProfileStatus
    | Key | Label | Version | Description | Jurisdiction | PlannerTaxonomy | SubjectOptions
    | GradeOptions | FrameworkDefaults | TemplateDefaults
    | SourceProfileType | Other(name: string)

  type Profile = map<Section, Json>

  predicate Truthy(v: Json) { v != Null && v != Bool(false) }

  function Either(v: Json, w: Json): Json { if Truthy(v) then v else w }

  function Get<K>(f: map<K, Json>, name: K): Json { if name in f then f[name] else Null }

  /** `value[name]` for a string `name`. */
  function Index(v: Json, name: string): Result<Json> {
    match v
    case Obj(f) => Ok(Get(f, name))
    case Str(s) => Ok(if Contains(s, name) then Str(name) else Null)
    case _ => Raised
  }

  /** One step of `Hash#dig`. */
  function Dig(v: Json, name: string): Result<Json> {
    match v
    case Null => Ok(Null)
    case Obj(f) => Ok(Get(f, name))
    case _ => Raised
  }

  function Dig2(v: Json, a: string, b: string): Result<Json> {
    var inner :- Dig(v, a);
    Dig(inner, b)
  }

  function ToS(h: Host, v: Json): string {
    match v
    case Null => ""
    case Bool(b) => if b then "true" else "false"
    case Num(text) => text
    case Str(s) => s
    case _ => h.inspect(v)
  }

  function ToArray(h: Host, v: Json): seq<Json> {
    match v
    case Null => []
    case Arr(items) => items
    case Obj(f) => h.pairs(f)
    case _ => [v]
  }

  function Strings(h: Host, vs: seq<Json>): seq<Json> {
    seq(|vs|, i requires 0 <= i < |vs| => Str(ToS(h, vs[i])))
  }

  predicate IsBlank(v: Json) {
    match v
    case Null => true
    case Bool(b) => !b
    case Num(_) => false
    case Str(s) => Blank(s)
    case Arr(items) => items == []
    case Obj(f) => f == map[]
  }

  function PresentOr(v: Json, w: Json): Json { if IsBlank(v) then w else v }

  function Uniq(vs: seq<Json>): seq<Json> {
    if vs == [] then [] else
    var rest := Uniq(vs[..|vs| - 1]);
    if vs[|vs| - 1] in rest then rest else rest + [vs[|vs| - 1]]
  }

  function StrArr(ss: seq<string>): Json {
    Arr(seq(|ss|, i requires 0 <= i < |ss| => Str(ss[i])))
  }

  /** `f[name] ||= v` */
  function Fill(f: Profile, name: Section, v: Json): (r: Profile)
    ensures f.Keys <= r.Keys && forall n :: Truthy(Get(f, n)) ==> Get(r, n) == Get(f, n)
    ensures Truthy(v) ==> Truthy(Get(r, name))
  {
    if Truthy(Get(f, name)) then f else f[name := v]
  }

  // ----- synthesised sections

  const LIFECYCLE_STATES := {"draft", "active", "deprecated", "frozen"}

  const DEFAULT_PROFILE_KEY := "american_common_core_v1"

  function DefaultNavigation(): (r: Json)
    ensures r.Obj?
  {
    Obj(map[
      "admin" := StrArr(["dashboard", "plan", "teach", "assess", "admin", "report", "communicate"]),
      "curriculum_lead" := StrArr(["dashboard", "plan", "assess", "report", "communicate"]),
      "teacher" := StrArr(["dashboard", "plan", "teach", "assess", "report", "communicate"]),
      "student" := StrArr(["learn", "communicate"]),
      "guardian" := StrArr(["guardian", "communicate"]),
      "district_admin" := StrArr(["district", "report"])
    ])
  }

  function DefaultWorkflowKey(documentType: string): string {
    if documentType == "unit_plan" then "unit_default"
    else if documentType == "lesson_plan" then "lesson_default"
    else if documentType == "template" then "template_default"
    else documentType + "_default"
  }

  /** `stringify_keys(value || {})`, where the caller goes on to use the result as a hash. */
  function HashOrEmpty(v: Json): Result<Fields> {
    if !Truthy(v) then Ok(map[]) else if v.Obj? then Ok(v.fields) else Raised
  }

  function DefaultWorkflowBindings(documentTypes: Json): (r: Result<Json>)
    ensures r.Ok? ==> r.value.Obj?
  {
    var types :- HashOrEmpty(documentTypes);
    Ok(Obj(map t | t in types :: Str(DefaultWorkflowKey(t))))
  }

  function Event(from: seq<string>, to: string, extra: Fields): Json {
    Obj(map[
      "from" := StrArr(from), "to" := Str(to),
      "roles" := StrArr(["admin", "curriculum_lead", "teacher"])
    ] + extra)
  }

  function TypedList(kind: string): Json { Arr([Obj(map["type" := Str(kind)])]) }

  function WorkflowTemplate(key: string): Json {
    var archive := Event(["published"], "archived", map[]);
    if Contains(key, "lesson") then
      Obj(map[
        "states" := StrArr(["draft", "published", "archived"]),
        "events" := Obj(map["publish" := Event(["draft"], "published", map[])])
      ])
    else if Contains(key, "template") then
      Obj(map[
        "states" := StrArr(["draft", "published", "archived"]),
        "events" := Obj(map["publish" := Event(["draft"], "published", map[]), "archive" := archive])
      ])
    else
      Obj(map[
        "states" := StrArr(["draft", "pending_approval", "published", "archived"]),
        "events" := Obj(map[
          "submit_for_approval" := Event(["draft"], "pending_approval",
            map["side_effects" := TypedList("create_approval")]),
          "publish" := Event(["draft", "pending_approval"], "published", map[
            "guards" := TypedList("approval_not_required_or_approved"),
            "side_effects" := TypedList("auto_approve_pending")]),
          "archive" := archive
        ])
      ])
  }

  /** One definition per workflow key bound to some document type. */
  function SynthesizeWorkflowDefinitions(h: Host, workflowBindings: Json): (r: Result<Json>)
    ensures r.Ok? ==> r.value.Obj?
  {
    var bindings :- HashOrEmpty(workflowBindings);
    Ok(Obj(map k | k in (set t | t in bindings :: ToS(h, bindings[t])) :: WorkflowTemplate(k)))
  }

  function SynthesizeFrameworkBindings(h: Host, f: Profile): (r: Result<Json>)
    ensures r.Ok? ==> r.value.Obj?
  {
    var bindings := Get(f, FrameworkBindings);
    var bound :- Dig(bindings, "defaults");
    var source :-
      if Truthy(bound) then Ok(bound)
      else if Truthy(Get(f, FrameworkDefaults)) then Ok(Get(f, FrameworkDefaults))
      else (
        var coverage :- Dig(Get(f, ReportBindings), "standards_coverage");
        Dig(coverage, "default_frameworks"));
    var defaults := Uniq(Strings(h, ToArray(h, source)));
    var allowed :- Dig(bindings, "allowed");
    var nodeKinds :- Dig(bindings, "node_kinds");
    Ok(Obj(map[
      "defaults" := Arr(defaults),
      "allowed" := Arr(Uniq(Strings(h, ToArray(h, allowed)) + defaults)),
      "node_kinds" := PresentOr(Arr(ToArray(h, nodeKinds)), StrArr(["standard"]))
    ]))
  }

  function Field(id: string, name: Json, component: string): Json {
    Obj(map["id" := Str(id), "label" := name, "component" := Str(component), "required" := Bool(true)])
  }

  function WithOptions(field: Json, options: seq<Json>): Json
    requires field.Obj?
  {
    Obj(field.fields["options" := Arr(options)])
  }

  function LabelOr(v: Json, name: string, default: string): Result<Json> {
    var found :- Index(v, name);
    Ok(Either(found, Str(default)))
  }

  function SynthesizePlannerObjectSchemas(h: Host, f: Profile): (r: Result<Json>)
    ensures r.Ok? ==> r.value.Obj?
  {
    var terminology := Either(Get(f, Terminology), Obj(map[]));
    var templateDefaults := Either(Get(f, TemplateDefaults), Obj(map[]));
    var frameworks :- Dig(Get(f, FrameworkBindings), "defaults");
    var unitType :- Dig(Get(f, DocumentTypes), "unit_plan");
    var lessonType :- Dig(Get(f, DocumentTypes), "lesson_plan");
    var subject :- LabelOr(terminology, "subject_label", "Subject");
    var grade :- LabelOr(terminology, "grade_label", "Grade Level");
    var unit :- LabelOr(terminology, "unit_label", "Unit");
    var unitStatuses :- Index(Either(unitType, Obj(map[])), "allowed_statuses");
    var lessonStatuses :- Index(Either(lessonType, Obj(map[])), "allowed_statuses");
    Ok(Obj(map[
      "unit_plan" := Obj(map[
        "fields" := Arr([
          Field("subject", subject, "text"),
          Field("grade_or_stage", grade, "text"),
          Field("title", Str(ToS(h, unit) + " Title"), "text")]),
        "status_options" := Arr(ToArray(h, unitStatuses))]),
      "lesson_plan" := Obj(map[
        "fields" := Arr([Field("title", Str("Lesson Title"), "text")]),
        "status_options" := Arr(ToArray(h, lessonStatuses))]),
      "template" := Obj(map["defaults" := templateDefaults, "tags" := Arr(Strings(h, ToArray(h, frameworks)))])
    ]))
  }

  // ----- v2: document schemas and types from the legacy planner objects

  function PropertyFromField(h: Host, field: Json): Result<Json> {
    var component :- Index(field, "component");
    var rawOptions :- Index(field, "options");
    var options := Strings(h, ToArray(h, rawOptions));
    var plain: Fields := map["type" := Str("string")];
    var choice := if options == [] then Obj(plain) else Obj(plain["enum" := Arr(options)]);
    var kind := ToS(h, component);
    Ok(if kind == "date" then Obj(plain["format" := Str("date")])
       else if kind == "checkbox" then Obj(map["type" := Str("boolean")])
       else if kind == "multiselect" then Obj(map["type" := Str("array"), "items" := choice])
       else if kind == "select" then choice
       else Obj(plain))
  }

  datatype DataSchema = DataSchema(properties: Fields, required: seq<Json>)

  function FieldsToDataSchema(h: Host, fields: seq<Json>): Result<DataSchema> {
    if fields == [] then Ok(DataSchema(map[], [])) else
    var acc :- FieldsToDataSchema(h, fields[..|fields| - 1]);
    var field := fields[|fields| - 1];
    var rawId :- Index(field, "id");
    var id := ToS(h, rawId);
    if Blank(id) then Ok(acc) else
    var property :- PropertyFromField(h, field);
    var required :- Index(field, "required");
    Ok(DataSchema(
      acc.properties[id := property],
      if required == Bool(true) then acc.required + [Str(id)] else acc.required))
  }

  function FieldIds(fields: seq<Json>): Result<seq<Json>> {
    if fields == [] then Ok([]) else
    var acc :- FieldIds(fields[..|fields| - 1]);
    var id :- Index(fields[|fields| - 1], "id");
    Ok(if id == Null then acc else acc + [id])
  }

  function LegacyDocumentSchema(h: Host, planner: Json, documentType: string): Result<Fields> {
    var raw :- Dig2(planner, documentType, "fields");
    var fields := ToArray(h, raw);
    var schema :- FieldsToDataSchema(h, fields);
    var ids :- FieldIds(fields);
    var title := Str(h.humanize(documentType));
    Ok(map[
      "document_type" := Str(documentType),
      "label" := title,
      "data_schema" := Obj(map[
        "type" := Str("object"),
        "properties" := Obj(schema.properties),
        "required" := Arr(schema.required),
        "additionalProperties" := Bool(false)]),
      "ui_schema" := Obj(map["sections" := Arr([Obj(map["title" := title, "fields" := Arr(ids)])])])
    ])
  }

  const LEGACY_TYPES := {"unit_plan", "lesson_plan", "template"}

  function SynthesizeDocumentSchemas(h: Host, plannerObjectSchemas: Json): Result<map<string, Fields>> {
    var planner := Either(plannerObjectSchemas, Obj(map[]));
    var unit :- LegacyDocumentSchema(h, planner, "unit_plan");
    var lesson :- LegacyDocumentSchema(h, planner, "lesson_plan");
    var template :- LegacyDocumentSchema(h, planner, "template");
    Ok(map["unit_plan@v1" := unit, "lesson_plan@v1" := lesson, "template@v1" := template])
  }

  function DocumentTypeOf(h: Host, schema: Fields): string { ToS(h, Get(schema, "document_type")) }

  /** The schema keys declared for a document type. */
  function SchemaKeysFor(h: Host, schemas: map<string, Fields>, documentType: string): set<string> {
    set k | k in schemas && DocumentTypeOf(h, schemas[k]) == documentType
  }

  predicate IsLeastString(s: set<string>, m: string) { m in s && forall x | x in s :: StringLeq(m, x) }

  lemma {:induction false} LeastString(s: set<string>)
    requires s != {}
    ensures exists m :: IsLeastString(s, m)
  {
    hide StringLeq;
    var y :| y in s;
    var rest := s - {y};
    StringLeqTotal(y, y);
    if rest == {} {
      assert s == {y} && IsLeastString(s, y);
    } else {
      LeastString(rest);
      var m :| IsLeastString(rest, m);
      StringLeqTotal(y, m);
      var least := if StringLeq(y, m) then y else m;
      forall x | x in s
        ensures StringLeq(least, x)
      {
        if x in rest { StringLeqTransitive(least, m, x); }
      }
      assert IsLeastString(s, least);
    }
  }

  lemma LeastStringUnique(s: set<string>, m: string, n: string)
    requires IsLeastString(s, m) && IsLeastString(s, n)
    ensures m == n
  {
    hide StringLeq;
    StringLeqAntisymmetric(m, n);
  }

  /** `keys.sort` for keys without duplicates. */
  function Sorted(s: set<string>): (r: seq<string>)
    ensures |r| == |s| && forall x :: x in r <==> x in s
    ensures forall i, j | 0 <= i <= j < |r| :: StringLeq(r[i], r[j])
  {
    if s == {} then [] else
    LeastString(s);
    assert forall m, n | IsLeastString(s, m) && IsLeastString(s, n) :: m == n by {
      forall m, n | IsLeastString(s, m) && IsLeastString(s, n) ensures m == n { LeastStringUnique(s, m, n); }
    }
    var m :| IsLeastString(s, m);
    [m] + Sorted(s - {m})
  }

  function DocumentTypeEntry(h: Host, documentType: string, keys: set<string>): Json
    requires keys != {}
  {
    var sorted := Sorted(keys);
    Obj(map[
      "label" := Str(h.humanize(documentType)),
      "allowed_schema_keys" := StrArr(sorted),
      "default_schema_key" := Str(sorted[0]),
      "allowed_statuses" := StrArr(
        if documentType == "unit_plan" then ["draft", "pending_approval", "published", "archived"]
        else ["draft", "published", "archived"]),
      "default_status" := Str("draft"),
      "relationships" := Obj(
        if documentType != "unit_plan" then map[]
        else map["contains" := Obj(map[
          "allowed_target_types" := StrArr(["lesson_plan"]),
          "max" := Num("999"),
          "ordered" := Bool(true)])])
    ])
  }

  function SynthesizeDocumentTypes(h: Host, schemas: map<string, Fields>): Fields {
    var types := set k | k in schemas && !Blank(DocumentTypeOf(h, schemas[k])) :: DocumentTypeOf(h, schemas[k]);
    map t | t in types ::
      DocumentTypeEntry(h, t, (
        assert SchemaKeysFor(h, schemas, t) != {} by {
          var k :| k in schemas && DocumentTypeOf(h, schemas[k]) == t;
          assert k in SchemaKeysFor(h, schemas, t);
        }
        SchemaKeysFor(h, schemas, t)))
  }

  // ----- normalisation

  /** A `versioning` section with its two defaults filled in; `schemaVersion` overrides the
      schema version when present. A string-valued section may survive Ruby's `String#[]=`,
      but `dig` then rejects it during validation, so it raises here. */
  function FillVersioning(f: Profile, schemaVersion: Option<string>, compatibility: string): Result<Profile> {
    var versioning :- HashOrEmpty(Get(f, Versioning));
    var v1 := versioning["schema_version" :=
      if schemaVersion.Some? then Str(schemaVersion.value)
      else PresentOr(Get(versioning, "schema_version"), Str("3.0"))];
    var v2 := v1["compatibility" := PresentOr(Get(v1, "compatibility"), Str(compatibility))];
    Ok(f[Versioning := Obj(v2)])
  }

  /** `f[name] ||= section`, where computing the section may raise and is skipped when `name` is set. */
  function FillWith(f: Profile, name: Section, section: () -> Result<Json>): (r: Result<Profile>)
    ensures r.Ok? ==> f.Keys <= r.value.Keys && forall n :: Truthy(Get(f, n)) ==> Get(r.value, n) == Get(f, n)
    ensures r.Ok? && (section().Ok? ==> Truthy(section().value)) ==> Truthy(Get(r.value, name))
  {
    if Truthy(Get(f, name)) then Ok(f)
    else
      var v :- section();
      Ok(f[name := v])
  }

  function NormalizeV3(h: Host, f: Profile): Result<Profile> {
    var f1 :- FillVersioning(f, None, "v3");
    var f2 := Fill(Fill(f1, Navigation, DefaultNavigation()), CapabilityModules, Obj(map[]));
    var f3 :- FillWith(f2, WorkflowBindings, () => DefaultWorkflowBindings(Get(f2, DocumentTypes)));
    var f4 :- FillWith(f3, WorkflowDefinitions, () => SynthesizeWorkflowDefinitions(h, Get(f3, WorkflowBindings)));
    var f5 :- FillWith(f4, FrameworkBindings, () => SynthesizeFrameworkBindings(h, f4));
    var f6 := Fill(Fill(f5, ReportBindings, Obj(map[])), IntegrationHints, Obj(map[]));
    FillWith(f6, PlannerObjectSchemas, () => SynthesizePlannerObjectSchemas(h, f6))
  }

  /** The sections a v2 profile always gets afresh. */
  function SynthesizeFromV2(h: Host, f: Profile): Result<Profile> {
    var schemas :- SynthesizeDocumentSchemas(h, Get(f, PlannerObjectSchemas));
    var types := Obj(SynthesizeDocumentTypes(h, schemas));
    var bindings :- if Truthy(Get(f, WorkflowBindings)) then Ok(Get(f, WorkflowBindings))
        else DefaultWorkflowBindings(types);
    var definitions :- SynthesizeWorkflowDefinitions(h, bindings);
    var frameworks :- SynthesizeFrameworkBindings(h, f);
    Ok(f[DocumentSchemas := Obj(map k | k in schemas :: Obj(schemas[k]))][DocumentTypes := types]
       [WorkflowBindings := bindings][WorkflowDefinitions := definitions][FrameworkBindings := frameworks])
  }

  function NormalizeV2(h: Host, f: Profile): Result<Profile> {
    var f1 :- FillVersioning(f, Some("3.0"), "v2_only");
    var f2 :- SynthesizeFromV2(h, f1);
    Ok(Fill(Fill(Fill(Fill(f2,
      ReportBindings, Obj(map[])), IntegrationHints, Obj(map[])),
      Navigation, DefaultNavigation()), CapabilityModules, Obj(map[])))
  }

  function AdaptV1(h: Host, f: Profile): Result<Profile> {
    var taxonomy := Either(Get(f, PlannerTaxonomy), Obj(map[]));
    var subject :- LabelOr(taxonomy, "subject_label", "Subject");
    var grade :- LabelOr(taxonomy, "grade_label", "Grade Level");
    var unit :- LabelOr(taxonomy, "unit_label", "Unit");
    var frameworks := Arr(Strings(h, ToArray(h, Get(f, FrameworkDefaults))));
    Ok(map[
      Identity := Obj(map[
        "key" := Get(f, Key), "label" := Get(f, Label),
        "description" := Get(f, Description), "jurisdiction" := Get(f, Jurisdiction)]),
      Versioning := Obj(map[
        "version" := Get(f, Version),
        "compatibility" := Str("v1_compatible"), "schema_version" := Str("2.0")]),
      Terminology := Obj(map["subject_label" := subject, "grade_label" := grade, "unit_label" := unit]),
      Navigation := DefaultNavigation(),
      PlannerObjectSchemas := Obj(map[
        "unit_plan" := Obj(map["fields" := Arr([
          WithOptions(Field("subject", subject, "select"), Strings(h, ToArray(h, Get(f, SubjectOptions)))),
          WithOptions(Field("grade_or_stage", grade, "select"),
            Strings(h, ToArray(h, Get(f, GradeOptions)))),
          Field("title", Str(ToS(h, unit) + " Title"), "text")])]),
        "template" := Obj(map[
          "defaults" := Either(Get(f, TemplateDefaults), Obj(map[])), "tags" := frameworks]),
        "lesson_plan" := Obj(map["fields" := Arr([Field("title", Str("Lesson Title"), "text")])])]),
      WorkflowBindings := Obj(map[
        "unit_plan" := Str("unit_plan_default_v1"), "template" := Str("template_default_v1"),
        "lesson_plan" := Str("lesson_plan_default_v1")]),
      ReportBindings := Obj(map["standards_coverage" := Obj(map["default_frameworks" := frameworks])]),
      CapabilityModules := Obj(map[
        "portfolio" := Bool(true), "interventions" := Bool(false),
        "pastoral" := Bool(false), "advanced_reports" := Bool(true)]),
      IntegrationHints := Either(Get(f, IntegrationHints), Obj(map[])),
      ProfileStatus := Either(Get(f, ProfileStatus), Str("active")),
      SourceProfileType := Str("v1_adapted")
    ])
  }

  predicate V3Shape(f: Profile) { DocumentTypes in f && DocumentSchemas in f }

  predicate V2Shape(f: Profile) { Identity in f && Versioning in f }

  function NormalizeStatus(h: Host, v: Json): Json {
    if ToS(h, v) in LIFECYCLE_STATES then Str(ToS(h, v)) else Str("draft")
  }

  /** The first field whose id is `id`. */
  function FindField(fields: seq<Json>, id: string): Result<Json> {
    if fields == [] then Ok(Null) else
    var fieldId :- Index(fields[0], "id");
    if fieldId == Str(id) then Ok(fields[0]) else FindField(fields[1..], id)
  }

  function OptionsOf(h: Host, fields: seq<Json>, id: string): Result<Json> {
    var field :- FindField(fields, id);
    var options :- Dig(field, "options");
    Ok(Arr(Strings(h, ToArray(h, options))))
  }

  /** The keys a v1 reader expects that depend on the v3 sections alone. */
  function LegacySections(h: Host, identity: Json, versioning: Json, terminology: Json, planner: Json,
    frameworkBindings: Json, reportBindings: Json): (r: Result<Profile>)
    ensures r.Ok? ==> r.value.Keys == LEGACY_KEYS - {TemplateDefaults}
  {
    var rawFields :- Dig2(planner, "unit_plan", "fields");
    var fields := ToArray(h, rawFields);
    var bound :- Dig(frameworkBindings, "defaults");
    var frameworks :-
      if Truthy(bound) then Ok(bound)
      else (
        var tags :- Dig2(planner, "template", "tags");
        if Truthy(tags) then Ok(tags)
        else
          var coverage :- Dig(reportBindings, "standards_coverage");
          Dig(coverage, "default_frameworks"));
    var key :- Index(identity, "key");
    var name :- Index(identity, "label");
    var version :- Index(versioning, "version");
    var description :- Index(identity, "description");
    var jurisdiction :- Index(identity, "jurisdiction");
    var subject :- LabelOr(terminology, "subject_label", "Subject");
    var grade :- LabelOr(terminology, "grade_label", "Grade Level");
    var unit :- LabelOr(terminology, "unit_label", "Unit");
    var subjectOptions :- OptionsOf(h, fields, "subject");
    var gradeOptions :- OptionsOf(h, fields, "grade_or_stage");
    Ok(map[
      Key := key, Label := name, Version := version, Description := description, Jurisdiction := jurisdiction,
      PlannerTaxonomy := Obj(map["subject_label" := subject, "grade_label" := grade, "unit_label" := unit]),
      SubjectOptions := subjectOptions,
      GradeOptions := gradeOptions,
      FrameworkDefaults := Arr(Strings(h, ToArray(h, frameworks)))
    ])
  }

  const LEGACY_KEYS := {
    Key, Label, Version, Description, Jurisdiction, PlannerTaxonomy, SubjectOptions, GradeOptions,
    FrameworkDefaults, TemplateDefaults}

  /** All keys a v1 reader expects; the template defaults may come from an earlier pass. */
  function LegacyKeys(h: Host, f: Profile): Result<Profile> {
    var planner := Either(Get(f, PlannerObjectSchemas), Obj(map[]));
    var sections :- LegacySections(h,
      Either(Get(f, Identity), Obj(map[])), Either(Get(f, Versioning), Obj(map[])),
      Either(Get(f, Terminology), Obj(map[])), planner, Get(f, FrameworkBindings), Get(f, ReportBindings));
    var templateDefaults :- Dig2(planner, "template", "defaults");
    Ok(sections[TemplateDefaults := Either(Either(templateDefaults, Get(f, TemplateDefaults)), Obj(map[]))])
  }

  function Reshape(h: Host, f: Profile): Result<Profile> {
    if V3Shape(f) then NormalizeV3(h, f)
    else if V2Shape(f) then NormalizeV2(h, f)
    else
      var adapted :- AdaptV1(h, f);
      NormalizeV2(h, adapted)
  }

  function Normalize(h: Host, profile: Profile): Result<Profile> {
    var f :- Reshape(h, profile);
    var g := f[ProfileStatus := NormalizeStatus(h, Get(f, ProfileStatus))];
    var legacy :- LegacyKeys(h, g);
    Ok(g + legacy)
  }
}
