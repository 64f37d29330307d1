/** What the normaliser makes up: data schemas from form fields, document types, workflows and planner objects. */
module RegistryDefaults {
  import opened Wrappers
  import opened Text
  import opened Registry
  import opened RegistryTheorems
  import opened RegistryValues

  // ----- data schemas from form fields

  /** A string, of some given ones when there are options. */
  function Choice(options: seq<Json>): Json {
    if options == [] then Obj(map["type" := Str("string")])
    else Obj(map["type" := Str("string"), "enum" := Arr(options)])
  }

  /** A date is a formatted string, a checkbox a boolean, a select a choice, a multiselect a list of choices and
      anything else, options or not, a string. */
  lemma PropertyOf(h: Host, field: Fields)
    ensures
      var component := ToS(h, if "component" in field then field["component"] else Null);
      var options := Strings(h, ToArray(h, if "options" in field then field["options"] else Null));
      && PropertyFromField(h, Obj(field)).Ok?
      && var p := PropertyFromField(h, Obj(field)).value;
      && (component == "date" ==> p == Obj(map["type" := Str("string"), "format" := Str("date")]))
      && (component == "checkbox" ==> p == Obj(map["type" := Str("boolean")]))
      && (component == "select" ==> p == Choice(options))
      && (component == "multiselect" ==> p == Obj(map["type" := Str("array"), "items" := Choice(options)]))
      && (component !in {"date", "checkbox", "select", "multiselect"} ==> p == Obj(map["type" := Str("string")]))
  {
    hide Strings, ToArray, ToS;
  }

  /** The id of a field, as a string. */
  function IdOf(h: Host, field: Json): string {
    match Index(field, "id") case Ok(v) => ToS(h, v) case Raised => ""
  }

  predicate HasId(h: Host, fields: seq<Json>, id: string) { exists i :: 0 <= i < |fields| && IdOf(h, fields[i]) == id }

  /** The field whose property an id gets: the last one with that id. */
  predicate LastWithId(h: Host, fields: seq<Json>, id: string, i: nat) {
    i < |fields| && IdOf(h, fields[i]) == id && forall j | i < j < |fields| :: IdOf(h, fields[j]) != id
  }

  lemma OneMoreId(h: Host, fields: seq<Json>, id: string)
    requires fields != []
    ensures HasId(h, fields, id) <==> id == IdOf(h, fields[|fields| - 1]) || HasId(h, fields[..|fields| - 1], id)
  {
    var n := |fields| - 1;
    assert forall i | 0 <= i < n :: fields[..n][i] == fields[i];
    if HasId(h, fields[..n], id) {
      var i :| 0 <= i < n && IdOf(h, fields[..n][i]) == id;
      assert IdOf(h, fields[i]) == id;
    }
    if HasId(h, fields, id) && id != IdOf(h, fields[n]) {
      var i :| 0 <= i < |fields| && IdOf(h, fields[i]) == id;
      assert IdOf(h, fields[..n][i]) == id;
    }
  }

  /** A data schema has a property for each visible id, made from the last field of that id. */
  lemma {:induction false} SchemaProperties(h: Host, fields: seq<Json>)
    requires FieldsToDataSchema(h, fields).Ok?
    ensures
      var properties := FieldsToDataSchema(h, fields).value.properties;
      && (forall id :: id in properties <==> !Blank(id) && HasId(h, fields, id))
      && forall id, i: nat | id in properties && LastWithId(h, fields, id, i) ::
           PropertyFromField(h, fields[i]) == Ok(properties[id])
  {
    hide PropertyFromField, ToS, Index, Blank, HasId;
    if fields == [] {
      NoIds(h);
    } else {
      var n := |fields| - 1;
      var init := fields[..n];
      SchemaProperties(h, init);
      forall id { OneMoreId(h, fields, id); }
      forall id, i: nat | LastWithId(h, fields, id, i) && id != IdOf(h, fields[n])
        ensures i < n && LastWithId(h, init, id, i) && init[i] == fields[i]
      {
      }
    }
  }

  lemma NoIds(h: Host)
    ensures forall id :: !HasId(h, [], id)
  {
  }

  predicate RequiredId(h: Host, field: Json, v: Json) {
    v == Str(IdOf(h, field)) && !Blank(IdOf(h, field)) && Index(field, "required") == Ok(Bool(true))
  }

  /** It requires the visible ids of the fields that are required, in their order. */
  lemma {:induction false} SchemaRequired(h: Host, fields: seq<Json>)
    requires FieldsToDataSchema(h, fields).Ok?
    ensures
      var required := FieldsToDataSchema(h, fields).value.required;
      && (forall v :: v in required <==> exists i :: 0 <= i < |fields| && RequiredId(h, fields[i], v))
      && forall n | 0 <= n <= |fields| ::
           FieldsToDataSchema(h, fields[..n]).Ok? && FieldsToDataSchema(h, fields[..n]).value.required <= required
  {
    hide PropertyFromField, ToS, Index, Blank;
    if fields != [] {
      var m := |fields| - 1;
      var init, last := fields[..m], fields[m];
      SchemaRequired(h, init);
      assert forall i | 0 <= i < m :: fields[i] == init[i];
      forall n | 0 <= n <= |fields|
        ensures FieldsToDataSchema(h, fields[..n]).Ok?
          && FieldsToDataSchema(h, fields[..n]).value.required <= FieldsToDataSchema(h, fields).value.required
      {
        if n < |fields| {
          assert init[..n] == fields[..n];
        } else {
          assert fields[..n] == fields;
        }
      }
    }
  }

  /** The form shows the ids that are not nil, in their order. */
  lemma {:induction false} FormIds(fields: seq<Json>)
    requires FieldIds(fields).Ok?
    ensures forall v :: v in FieldIds(fields).value <==>
              v != Null && exists i :: 0 <= i < |fields| && Index(fields[i], "id") == Ok(v)
    ensures forall n | 0 <= n <= |fields| ::
        FieldIds(fields[..n]).Ok? && FieldIds(fields[..n]).value <= FieldIds(fields).value
  {
    hide Index;
    if fields != [] {
      var m := |fields| - 1;
      var init := fields[..m];
      FormIds(init);
      assert forall i | 0 <= i < m :: fields[i] == init[i];
      forall n | 0 <= n <= |fields|
        ensures FieldIds(fields[..n]).Ok? && FieldIds(fields[..n]).value <= FieldIds(fields).value
      {
        if n < |fields| {
          assert init[..n] == fields[..n];
        } else {
          assert fields[..n] == fields;
        }
      }
    }
  }

  /** A legacy document schema, from the fields of its planner object. */
  lemma LegacySchemaRead(h: Host, planner: Json, documentType: string) returns (raw: Json)
    requires LegacyDocumentSchema(h, planner, documentType).Ok?
    ensures Dig2(planner, documentType, "fields") == Ok(raw)
    ensures
      var s := LegacyDocumentSchema(h, planner, documentType).value;
      var fields := ToArray(h, raw);
      && FieldsToDataSchema(h, fields).Ok? && FieldIds(fields).Ok?
      && s.Keys == {"document_type", "label", "data_schema", "ui_schema"}
      && s["document_type"] == Str(documentType) && s["label"] == Str(h.humanize(documentType))
      && s["data_schema"] == Obj(map["type" := Str("object"),
           "properties" := Obj(FieldsToDataSchema(h, fields).value.properties),
           "required" := Arr(FieldsToDataSchema(h, fields).value.required), "additionalProperties" := Bool(false)])
      && s["ui_schema"] == Obj(map["sections" :=
           Arr([Obj(map["title" := Str(h.humanize(documentType)), "fields" := Arr(FieldIds(fields).value)])])])
  {
    hide FieldsToDataSchema, FieldIds, ToArray, Dig;
    raw := Dig2(planner, documentType, "fields").value;
  }

  /** The schemas of a lifted profile: one for each of the three legacy types, under its key. */
  lemma LegacySchemas(h: Host, planner: Json)
    requires SynthesizeDocumentSchemas(h, planner).Ok?
    ensures
      var schemas := SynthesizeDocumentSchemas(h, planner).value;
      && schemas.Keys == {"unit_plan@v1", "lesson_plan@v1", "template@v1"}
      && LegacyDocumentSchema(h, OrHash(planner), "unit_plan") == Ok(schemas["unit_plan@v1"])
      && LegacyDocumentSchema(h, OrHash(planner), "lesson_plan") == Ok(schemas["lesson_plan@v1"])
      && LegacyDocumentSchema(h, OrHash(planner), "template") == Ok(schemas["template@v1"])
  {
    EitherIsOrHash(planner);
    hide LegacyDocumentSchema, OrHash;
  }

  // ----- document types

  /** A synthesised type starts as a draft; only a unit plan can be pending, and only it contains lesson plans. */
  lemma TypeEntry(h: Host, t: string, keys: set<string>)
    requires keys != {}
    ensures
      var entry := DocumentTypeEntry(h, t, keys);
      && entry.Obj?
      && entry.fields.Keys == {"label", "allowed_schema_keys", "default_schema_key", "allowed_statuses",
                               "default_status", "relationships"}
      && entry.fields["label"] == Str(h.humanize(t)) && entry.fields["default_status"] == Str("draft")
      && entry.fields["allowed_statuses"]
         == Arr([Str("draft")] + (if t == "unit_plan" then [Str("pending_approval")] else [])
                + [Str("published"), Str("archived")])
      && entry.fields["relationships"]
         == (if t == "unit_plan" then
               Obj(map["contains" := Obj(map["allowed_target_types" := Arr([Str("lesson_plan")]), "max" := Num("999"),
                                             "ordered" := Bool(true)])])
             else Obj(map[]))
  {
    hide Sorted;
    assert StrArr(["draft", "pending_approval", "published", "archived"]).items
      == [Str("draft")] + [Str("pending_approval")] + [Str("published"), Str("archived")];
    assert StrArr(["draft", "published", "archived"]).items
        == [Str("draft")] + [] + [Str("published"), Str("archived")];
    assert StrArr(["lesson_plan"]).items == [Str("lesson_plan")];
  }

  // ----- workflows

  /** The workflow bound to a document type by default. */
  lemma DefaultBinding(types: Fields, t: string)
    ensures
      var bindings := DefaultWorkflowBindings(Obj(types));
      && bindings.Ok? && bindings.value.fields.Keys == types.Keys
      && (t in types ==>
           bindings.value.fields[t]
           == Str(if t == "unit_plan" then "unit_default"
                  else if t == "lesson_plan" then "lesson_default"
                  else t + "_default"))
  {
  }

  function ItemsOf(v: Json): seq<Json> { if v.Arr? then v.items else [] }

  /** The event takes a document from one state to another and is for the three staff roles. */
  predicate Takes(e: Json, from: string, to: string) {
    && e.Obj? && Str(from) in ItemsOf(Get(e.fields, "from")) && Get(e.fields, "to") == Str(to)
    && Get(e.fields, "roles") == Arr([Str("admin"), Str("curriculum_lead"), Str("teacher")])
  }

  /** So does an event of a workflow. */
  predicate Moves(template: Json, event: string, from: string, to: string) {
    && template.Obj? && Get(template.fields, "events").Obj?
    && event in Get(template.fields, "events").fields && Takes(Get(template.fields, "events").fields[event], from, to)
  }

  lemma EventTakes(sources: seq<string>, target: string, extra: Fields, from: string, to: string)
    requires "from" !in extra && "to" !in extra && "roles" !in extra
    ensures Takes(Event(sources, target, extra), from, to) <==> from in sources && to == target
  {
    StringItems(sources, from);
    assert StrArr(["admin", "curriculum_lead", "teacher"]).items
        == [Str("admin"), Str("curriculum_lead"), Str("teacher")];
    hide StrArr, ItemsOf;
  }

  /** Lessons are published from drafts; templates are archived too; anything else can also wait for approval. */
  lemma WorkflowMoves(key: string, event: string, from: string, to: string)
    ensures
      Moves(WorkflowTemplate(key), event, from, to) <==>
        || (event == "publish" && from == "draft" && to == "published")
        || (event == "archive" && from == "published" && to == "archived" && !Contains(key, "lesson"))
        || (!Contains(key, "lesson") && !Contains(key, "template")
            && ((event == "submit_for_approval" && from == "draft" && to == "pending_approval")
                || (event == "publish" && from == "pending_approval" && to == "published")))
  {
    var approved: Fields := map["guards" := TypedList("approval_not_required_or_approved"),
                                "side_effects" := TypedList("auto_approve_pending")];
    EventTakes(["draft"], "published", map[], from, to);
    EventTakes(["published"], "archived", map[], from, to);
    EventTakes(["draft"], "pending_approval", map["side_effects" := TypedList("create_approval")], from, to);
    EventTakes(["draft", "pending_approval"], "published", approved, from, to);
    EventsNamed(key, event, from, to);
    hide Contains, Event, Takes, StrArr, TypedList, WorkflowTemplate, Moves;
  }

  lemma EventsNamed(key: string, event: string, from: string, to: string)
    ensures
      var approved: Fields := map["guards" := TypedList("approval_not_required_or_approved"),
                                  "side_effects" := TypedList("auto_approve_pending")];
      var submitted: Fields := map["side_effects" := TypedList("create_approval")];
      var archives := event == "archive" && Takes(Event(["published"], "archived", map[]), from, to);
      Moves(WorkflowTemplate(key), event, from, to) <==>
        if Contains(key, "lesson") || Contains(key, "template") then
          || (event == "publish" && Takes(Event(["draft"], "published", map[]), from, to))
          || (!Contains(key, "lesson") && archives)
        else
          || (event == "publish" && Takes(Event(["draft", "pending_approval"], "published", approved), from, to))
          || (event == "submit_for_approval" && Takes(Event(["draft"], "pending_approval", submitted), from, to))
          || archives
  {
    hide Contains, Event, Takes, StrArr, TypedList;
  }

  /** The states of a workflow; submitting creates an approval, and publishing where there are approvals needs one
      unless none is required, and gives the pending ones. */
  lemma WorkflowEffects(key: string)
    ensures
      var t := WorkflowTemplate(key);
      var approvals := !Contains(key, "lesson") && !Contains(key, "template");
      && t.Obj? && t.fields.Keys == {"states", "events"}
      && ItemsOf(t.fields["states"])
         == [Str("draft")] + (if approvals then [Str("pending_approval")] else []) + [Str("published"), Str("archived")]
      && (approvals ==>
           && EventPart(t, "submit_for_approval", "side_effects") == Arr([Obj(map["type" := Str("create_approval")])])
           && EventPart(t, "publish", "guards") == Arr([Obj(map["type" := Str("approval_not_required_or_approved")])])
           && EventPart(t, "publish", "side_effects") == Arr([Obj(map["type" := Str("auto_approve_pending")])]))
  {
    hide Contains;
    assert StrArr(["draft", "pending_approval", "published", "archived"]).items
      == [Str("draft")] + [Str("pending_approval")] + [Str("published"), Str("archived")];
    assert StrArr(["draft", "published", "archived"]).items
        == [Str("draft")] + [] + [Str("published"), Str("archived")];
    hide StrArr;
  }

  function EventPart(template: Json, event: string, part: string): Json {
    if template.Obj? && Get(template.fields, "events").Obj? && Get(Get(template.fields, "events").fields, event).Obj?
    then Get(Get(Get(template.fields, "events").fields, event).fields, part) else Null
  }

  lemma StringItems(ss: seq<string>, s: string)
    ensures Str(s) in ItemsOf(StrArr(ss)) <==> s in ss
  {
    assert forall i | 0 <= i < |ss| :: StrArr(ss).items[i] == Str(ss[i]);
  }

  /** One definition for each workflow that is bound, and no other. */
  lemma DefinitionsBound(h: Host, bindings: Fields)
    ensures
      var r := SynthesizeWorkflowDefinitions(h, Obj(bindings));
      && r.Ok? && r.value.Obj?
      && (forall k :: k in r.value.fields <==> exists t :: t in bindings && ToS(h, bindings[t]) == k)
      && forall k | k in r.value.fields :: r.value.fields[k] == WorkflowTemplate(k)
  {
    hide ToS, WorkflowTemplate;
  }

  // ----- navigation

  predicate Opens(role: string, workspace: string) {
    role in DefaultNavigation().fields && Str(workspace) in ItemsOf(DefaultNavigation().fields[role])
  }

  /** Who opens which workspace by default: staff plan, assess, report and have a dashboard; teachers and admins also
      teach; students learn; guardians and districts have their own; all but districts communicate. */
  lemma NavigationOpens(role: string, workspace: string)
    ensures
      var staff := role == "admin" || role == "curriculum_lead" || role == "teacher";
      Opens(role, workspace) <==>
        || (staff && workspace in {"dashboard", "plan", "assess"})
        || ((role == "admin" || role == "teacher") && workspace == "teach")
        || (role == "admin" && workspace == "admin")
        || ((staff || role == "district_admin") && workspace == "report")
        || (role == "student" && workspace == "learn")
        || (role == "guardian" && workspace == "guardian")
        || (role == "district_admin" && workspace == "district")
        || ((staff || role == "student" || role == "guardian") && workspace == "communicate")
  {
    StringItems(["dashboard", "plan", "teach", "assess", "admin", "report", "communicate"], workspace);
    StringItems(["dashboard", "plan", "assess", "report", "communicate"], workspace);
    StringItems(["dashboard", "plan", "teach", "assess", "report", "communicate"], workspace);
    StringItems(["learn", "communicate"], workspace);
    StringItems(["guardian", "communicate"], workspace);
    StringItems(["district", "report"], workspace);
    hide StrArr, ItemsOf;
  }

  // ----- planner objects made from document types

  /** A text field, required. */
  function TextField(id: string, name: Json): Json {
    Obj(map["id" := Str(id), "label" := name, "component" := Str("text"), "required" := Bool(true)])
  }

  /** The term a profile uses, or its default. */
  predicate TermOf(f: Profile, name: string, default: string, v: Json) {
    var terms := OrHash(Get(f, Terminology));
    Index(terms, name).Ok? && v == if Truthy(Index(terms, name).value) then Index(terms, name).value else Str(default)
  }

  lemma LabelIsTerm(f: Profile, name: string, default: string)
    requires LabelOr(Either(Get(f, Terminology), Obj(map[])), name, default).Ok?
    ensures TermOf(f, name, default, LabelOr(Either(Get(f, Terminology), Obj(map[])), name, default).value)
  {
    EitherIsOrHash(Get(f, Terminology));
  }

  /** The statuses a document type allows. */
  predicate StatusesOf(h: Host, f: Profile, t: string, v: Json) {
    var found := Dig(Get(f, DocumentTypes), t);
    && found.Ok? && Index(OrHash(found.value), "allowed_statuses").Ok?
    && v == Arr(ToArray(h, Index(OrHash(found.value), "allowed_statuses").value))
  }

  /** Planner objects made up for a profile without any: text fields under the profile's terms, the statuses of its
      document types and its template and framework defaults. */
  lemma PlannerMade(h: Host, f: Profile) returns (subject: Json, grade: Json, unit: Json, units: Json, lessons: Json)
    requires SynthesizePlannerObjectSchemas(h, f).Ok?
    ensures TermOf(f, "subject_label", "Subject", subject) && TermOf(f, "grade_label", "Grade Level", grade)
    ensures TermOf(f, "unit_label", "Unit", unit)
    ensures StatusesOf(h, f, "unit_plan", units) && StatusesOf(h, f, "lesson_plan", lessons)
    ensures Dig(Get(f, FrameworkBindings), "defaults").Ok?
    ensures
      var p := SynthesizePlannerObjectSchemas(h, f).value;
      && p.fields.Keys == {"unit_plan", "lesson_plan", "template"}
      && p.fields["unit_plan"] == Obj(map["fields" := Arr([TextField("subject", subject),
           TextField("grade_or_stage", grade), TextField("title", Str(ToS(h, unit) + " Title"))]),
           "status_options" := units])
      && p.fields["lesson_plan"]
         == Obj(map["fields" := Arr([TextField("title", Str("Lesson Title"))]), "status_options" := lessons])
      && p.fields["template"] == Obj(map["defaults" := OrHash(Get(f, TemplateDefaults)),
           "tags" := Arr(Strings(h, ToArray(h, Dig(Get(f, FrameworkBindings), "defaults").value)))])
  {
    var terminology := Either(Get(f, Terminology), Obj(map[]));
    subject := LabelOr(terminology, "subject_label", "Subject").value;
    grade := LabelOr(terminology, "grade_label", "Grade Level").value;
    unit := LabelOr(terminology, "unit_label", "Unit").value;
    LabelIsTerm(f, "subject_label", "Subject");
    LabelIsTerm(f, "grade_label", "Grade Level");
    LabelIsTerm(f, "unit_label", "Unit");
    EitherIsOrHash(Get(f, TemplateDefaults));
    var unitType := Dig(Get(f, DocumentTypes), "unit_plan").value;
    var lessonType := Dig(Get(f, DocumentTypes), "lesson_plan").value;
    EitherIsOrHash(unitType);
    EitherIsOrHash(lessonType);
    units := Arr(ToArray(h, Index(Either(unitType, Obj(map[])), "allowed_statuses").value));
    lessons := Arr(ToArray(h, Index(Either(lessonType, Obj(map[])), "allowed_statuses").value));
    TextFieldBuilt("subject", subject);
    TextFieldBuilt("grade_or_stage", grade);
    TextFieldBuilt("title", Str(ToS(h, unit) + " Title"));
    TextFieldBuilt("title", Str("Lesson Title"));
    hide ToS, ToArray, Strings, LabelOr, TermOf, Index, Dig, Either, OrHash, Field, TextField;
  }

  lemma TextFieldBuilt(id: string, name: Json)
    ensures Field(id, name, "text") == TextField(id, name)
  {
  }

  // ----- what is made up for a v2 profile

  /** A lifted profile has the legacy schemas and the types they make, the workflow bindings it brings or the default
      ones of those types, and a definition for each. */
  lemma V2Made(h: Host, f: Profile)
    requires NormalizeV2(h, f).Ok?
    ensures
      var g, schemas := NormalizeV2(h, f).value, SynthesizeDocumentSchemas(h, Get(f, PlannerObjectSchemas));
      && schemas.Ok?
      && Get(g, DocumentSchemas) == Obj(map k | k in schemas.value :: Obj(schemas.value[k]))
      && Get(g, DocumentTypes) == Obj(SynthesizeDocumentTypes(h, schemas.value))
      && (if Truthy(Get(f, WorkflowBindings)) then Get(g, WorkflowBindings) == Get(f, WorkflowBindings)
          else DefaultWorkflowBindings(Get(g, DocumentTypes)) == Ok(Get(g, WorkflowBindings)))
      && SynthesizeWorkflowDefinitions(h, Get(g, WorkflowBindings)) == Ok(Get(g, WorkflowDefinitions))
  {
    FrameworksUnversioned(h, f);
    var f1 := FillVersioning(f, Some("3.0"), "v2_only").value;
    VersioningAlone(f, Some("3.0"), "v2_only", PlannerObjectSchemas);
    VersioningAlone(f, Some("3.0"), "v2_only", WorkflowBindings);
    SynthesisMade(h, f1);
    V2Fills(h, f, DocumentSchemas);
    V2Fills(h, f, DocumentTypes);
    V2Fills(h, f, WorkflowBindings);
    V2Fills(h, f, WorkflowDefinitions);
    hide NormalizeV2, FillVersioning, SynthesizeFromV2, SynthesizeDocumentSchemas, SynthesizeDocumentTypes, Get,
      DefaultWorkflowBindings, SynthesizeWorkflowDefinitions, DefaultNavigation, SynthesizeFrameworkBindings;
  }

  lemma SynthesisMade(h: Host, f: Profile)
    requires SynthesizeFromV2(h, f).Ok?
    ensures
      var g, schemas := SynthesizeFromV2(h, f).value, SynthesizeDocumentSchemas(h, Get(f, PlannerObjectSchemas));
      && schemas.Ok?
      && Get(g, DocumentSchemas) == Obj(map k | k in schemas.value :: Obj(schemas.value[k]))
      && Get(g, DocumentTypes) == Obj(SynthesizeDocumentTypes(h, schemas.value))
      && (if Truthy(Get(f, WorkflowBindings)) then Get(g, WorkflowBindings) == Get(f, WorkflowBindings)
          else DefaultWorkflowBindings(Get(g, DocumentTypes)) == Ok(Get(g, WorkflowBindings)))
      && SynthesizeWorkflowDefinitions(h, Get(g, WorkflowBindings)) == Ok(Get(g, WorkflowDefinitions))
  {
    hide SynthesizeDocumentSchemas, SynthesizeDocumentTypes, DefaultWorkflowBindings, SynthesizeWorkflowDefinitions,
      SynthesizeFrameworkBindings;
  }

  // ----- defaults of a v3 profile

  /** The default of a section that a v3 profile lacks: made up from the profile or from what is filled in before. */
  predicate V3Default(h: Host, f: Profile, g: Profile, name: Section, v: Json) {
    match name
    case Navigation => v == DefaultNavigation()
    case CapabilityModules => v == Obj(map[])
    case ReportBindings => v == Obj(map[])
    case IntegrationHints => v == Obj(map[])
    case WorkflowBindings => DefaultWorkflowBindings(Get(f, DocumentTypes)) == Ok(v)
    case WorkflowDefinitions => SynthesizeWorkflowDefinitions(h, Get(g, WorkflowBindings)) == Ok(v)
    case FrameworkBindings => SynthesizeFrameworkBindings(h, f) == Ok(v)
    case PlannerObjectSchemas =>
      SynthesizePlannerObjectSchemas(h, f[FrameworkBindings := Get(g, FrameworkBindings)]) == Ok(v)
    case _ => v == Get(f, name)
  }

  lemma FilledWithAt(f: Profile, at: Section, section: () -> Result<Json>, name: Section)
    requires FillWith(f, at, section).Ok?
    ensures
      var g := FillWith(f, at, section).value;
      if name == at && !Truthy(Get(f, at)) then section() == Ok(Get(g, name)) else Get(g, name) == Get(f, name)
  {
  }

  lemma FrameworksSame(h: Host, f: Profile, g: Profile)
    requires forall n | n in {FrameworkBindings, FrameworkDefaults, ReportBindings} :: Get(f, n) == Get(g, n)
    ensures SynthesizeFrameworkBindings(h, f) == SynthesizeFrameworkBindings(h, g)
  {
    assert Get(f, FrameworkBindings) == Get(g, FrameworkBindings)
        && Get(f, FrameworkDefaults) == Get(g, FrameworkDefaults);
    assert Get(f, ReportBindings) == Get(g, ReportBindings);
    hide Get, Strings, Uniq, ToArray;
  }

  lemma PlannerSame(h: Host, f: Profile, g: Profile)
    requires forall n | n in {Terminology, TemplateDefaults, FrameworkBindings, DocumentTypes} :: Get(f, n) == Get(g, n)
    ensures SynthesizePlannerObjectSchemas(h, f) == SynthesizePlannerObjectSchemas(h, g)
  {
    assert Get(f, Terminology) == Get(g, Terminology) && Get(f, TemplateDefaults) == Get(g, TemplateDefaults);
    assert Get(f, FrameworkBindings) == Get(g, FrameworkBindings) && Get(f, DocumentTypes) == Get(g, DocumentTypes);
    hide Get, Strings, ToArray, Field, LabelOr, ToS;
  }

  /** The profile after each of the fillings of the v3 branch. */
  datatype Stage = Stage(f1: Profile, f2: Profile, f3: Profile, f4: Profile, f5: Profile, f6: Profile)

  predicate Stages(h: Host, f: Profile, s: Stage) {
    && FillVersioning(f, None, "v3") == Ok(s.f1)
    && s.f2 == Fill(Fill(s.f1, Navigation, DefaultNavigation()), CapabilityModules, Obj(map[]))
    && FillWith(s.f2, WorkflowBindings, () => DefaultWorkflowBindings(Get(s.f2, DocumentTypes))) == Ok(s.f3)
    && FillWith(s.f3, WorkflowDefinitions, () => SynthesizeWorkflowDefinitions(h, Get(s.f3, WorkflowBindings)))
        == Ok(s.f4)
    && FillWith(s.f4, FrameworkBindings, () => SynthesizeFrameworkBindings(h, s.f4)) == Ok(s.f5)
    && s.f6 == Fill(Fill(s.f5, ReportBindings, Obj(map[])), IntegrationHints, Obj(map[]))
    && FillWith(s.f6, PlannerObjectSchemas, () => SynthesizePlannerObjectSchemas(h, s.f6)) == NormalizeV3(h, f)
  }

  lemma V3Stages(h: Host, f: Profile) returns (s: Stage)
    requires NormalizeV3(h, f).Ok?
    ensures Stages(h, f, s)
  {
    hide FillVersioning, Fill, FillWith, DefaultNavigation, Get, DefaultWorkflowBindings,
      SynthesizeWorkflowDefinitions, SynthesizeFrameworkBindings, SynthesizePlannerObjectSchemas;
    var f1 := FillVersioning(f, None, "v3").value;
    var f2 := Fill(Fill(f1, Navigation, DefaultNavigation()), CapabilityModules, Obj(map[]));
    var f3 := FillWith(f2, WorkflowBindings, () => DefaultWorkflowBindings(Get(f2, DocumentTypes))).value;
    var f4 :=
        FillWith(f3, WorkflowDefinitions, () => SynthesizeWorkflowDefinitions(h, Get(f3, WorkflowBindings))).value;
    var f5 := FillWith(f4, FrameworkBindings, () => SynthesizeFrameworkBindings(h, f4)).value;
    var f6 := Fill(Fill(f5, ReportBindings, Obj(map[])), IntegrationHints, Obj(map[]));
    s := Stage(f1, f2, f3, f4, f5, f6);
  }

  /** What the stages hold under a name. */
  lemma EarlyAt(h: Host, f: Profile, s: Stage, name: Section)
    requires Stages(h, f, s)
    ensures name != Versioning ==> Get(s.f1, name) == Get(f, name)
    ensures Get(s.f2, name)
         == if Truthy(Get(s.f1, name)) then Get(s.f1, name)
            else if name == Navigation then DefaultNavigation()
            else if name == CapabilityModules then Obj(map[])
            else Get(s.f1, name)
    ensures name != WorkflowBindings ==> Get(s.f3, name) == Get(s.f2, name)
    ensures name != WorkflowDefinitions ==> Get(s.f4, name) == Get(s.f3, name)
  {
    hide DefaultNavigation, Get, Truthy, DefaultWorkflowBindings, SynthesizeWorkflowDefinitions, NormalizeV3, FillWith,
      Fill, SynthesizeFrameworkBindings, SynthesizePlannerObjectSchemas, FillVersioning;
    VersioningAlone(f, None, "v3", name);
    FilledAt(s.f1, Navigation, DefaultNavigation(), name);
    FilledAt(Fill(s.f1, Navigation, DefaultNavigation()), CapabilityModules, Obj(map[]), name);
    FilledWithAt(s.f2, WorkflowBindings, () => DefaultWorkflowBindings(Get(s.f2, DocumentTypes)), name);
    FilledWithAt(s.f3, WorkflowDefinitions, () => SynthesizeWorkflowDefinitions(h, Get(s.f3, WorkflowBindings)), name);
  }

  lemma LateAt(h: Host, f: Profile, s: Stage, name: Section)
    requires Stages(h, f, s) && NormalizeV3(h, f).Ok?
    ensures name != FrameworkBindings ==> Get(s.f5, name) == Get(s.f4, name)
    ensures Get(s.f6, name) == if Truthy(Get(s.f5, name)) then Get(s.f5, name)
                               else if name == ReportBindings || name == IntegrationHints then Obj(map[])
                               else Get(s.f5, name)
    ensures name != PlannerObjectSchemas ==> Get(NormalizeV3(h, f).value, name) == Get(s.f6, name)
  {
    hide DefaultNavigation, Get, Truthy, DefaultWorkflowBindings, SynthesizeWorkflowDefinitions, NormalizeV3, FillWith,
      Fill, SynthesizeFrameworkBindings, SynthesizePlannerObjectSchemas, FillVersioning;
    FilledWithAt(s.f4, FrameworkBindings, () => SynthesizeFrameworkBindings(h, s.f4), name);
    FilledAt(s.f5, ReportBindings, Obj(map[]), name);
    FilledAt(Fill(s.f5, ReportBindings, Obj(map[])), IntegrationHints, Obj(map[]), name);
    FilledWithAt(s.f6, PlannerObjectSchemas, () => SynthesizePlannerObjectSchemas(h, s.f6), name);
  }

  /** Where the sections made up come from. */
  lemma MadeUp(h: Host, f: Profile, s: Stage)
    requires Stages(h, f, s) && NormalizeV3(h, f).Ok?
    ensures if Truthy(Get(s.f2, WorkflowBindings)) then Get(s.f3, WorkflowBindings) == Get(s.f2, WorkflowBindings)
            else DefaultWorkflowBindings(Get(s.f2, DocumentTypes)) == Ok(Get(s.f3, WorkflowBindings))
    ensures if Truthy(Get(s.f3, WorkflowDefinitions))
        then Get(s.f4, WorkflowDefinitions) == Get(s.f3, WorkflowDefinitions)
            else SynthesizeWorkflowDefinitions(h, Get(s.f3, WorkflowBindings)) == Ok(Get(s.f4, WorkflowDefinitions))
    ensures if Truthy(Get(s.f4, FrameworkBindings)) then Get(s.f5, FrameworkBindings) == Get(s.f4, FrameworkBindings)
            else SynthesizeFrameworkBindings(h, s.f4) == Ok(Get(s.f5, FrameworkBindings))
    ensures if Truthy(Get(s.f6, PlannerObjectSchemas))
            then Get(NormalizeV3(h, f).value, PlannerObjectSchemas) == Get(s.f6, PlannerObjectSchemas)
            else SynthesizePlannerObjectSchemas(h, s.f6) == Ok(Get(NormalizeV3(h, f).value, PlannerObjectSchemas))
  {
    hide DefaultNavigation, Get, Truthy, DefaultWorkflowBindings, SynthesizeWorkflowDefinitions, NormalizeV3, FillWith,
      Fill, SynthesizeFrameworkBindings, SynthesizePlannerObjectSchemas, FillVersioning;
    FilledWithAt(s.f2, WorkflowBindings, () => DefaultWorkflowBindings(Get(s.f2, DocumentTypes)), WorkflowBindings);
    FilledWithAt(s.f3, WorkflowDefinitions, () => SynthesizeWorkflowDefinitions(h, Get(s.f3, WorkflowBindings)),
      WorkflowDefinitions);
    FilledWithAt(s.f4, FrameworkBindings, () => SynthesizeFrameworkBindings(h, s.f4), FrameworkBindings);
    FilledWithAt(s.f6, PlannerObjectSchemas, () => SynthesizePlannerObjectSchemas(h, s.f6), PlannerObjectSchemas);
  }

  /** A section kept, or made up when there was none. */
  predicate Kept(h: Host, f: Profile, name: Section)
    requires NormalizeV3(h, f).Ok?
  {
    var g := NormalizeV3(h, f).value;
    if Truthy(Get(f, name)) then Get(g, name) == Get(f, name) else V3Default(h, f, g, name, Get(g, name))
  }

  /** A v3 profile keeps every section it brings and gets the default of every section it lacks. */
  lemma V3Defaults(h: Host, f: Profile, name: Section)
    requires NormalizeV3(h, f).Ok? && name != Versioning
    ensures Kept(h, f, name)
  {
    hide NormalizeV3, Kept;
    var s := V3Stages(h, f);
    hide Stages;
    match name
    case WorkflowBindings => V3Workflows(h, f, s);
    case WorkflowDefinitions => V3Workflows(h, f, s);
    case FrameworkBindings => V3Frameworks(h, f, s);
    case PlannerObjectSchemas => V3Planner(h, f, s);
    case _ => V3Plain(h, f, s, name);
  }

  lemma V3Workflows(h: Host, f: Profile, s: Stage)
    requires NormalizeV3(h, f).Ok? && Stages(h, f, s)
    ensures Kept(h, f, WorkflowBindings) && Kept(h, f, WorkflowDefinitions)
  {
    hide DefaultNavigation, Get, Truthy, DefaultWorkflowBindings, SynthesizeWorkflowDefinitions, NormalizeV3, FillWith,
      Fill, SynthesizeFrameworkBindings, SynthesizePlannerObjectSchemas, FillVersioning, Stages;
    EarlyAt(h, f, s, DocumentTypes);
    EarlyAt(h, f, s, WorkflowBindings);
    EarlyAt(h, f, s, WorkflowDefinitions);
    LateAt(h, f, s, WorkflowBindings);
    LateAt(h, f, s, WorkflowDefinitions);
    MadeUp(h, f, s);
  }

  lemma V3Frameworks(h: Host, f: Profile, s: Stage)
    requires NormalizeV3(h, f).Ok? && Stages(h, f, s)
    ensures Kept(h, f, FrameworkBindings)
  {
    hide DefaultNavigation, Get, Truthy, DefaultWorkflowBindings, SynthesizeWorkflowDefinitions, NormalizeV3, FillWith,
      Fill, SynthesizeFrameworkBindings, SynthesizePlannerObjectSchemas, FillVersioning, Stages;
    EarlyAt(h, f, s, FrameworkBindings);
    EarlyAt(h, f, s, FrameworkDefaults);
    EarlyAt(h, f, s, ReportBindings);
    LateAt(h, f, s, FrameworkBindings);
    MadeUp(h, f, s);
    FrameworkSource(f, s.f4);
    FrameworksSame(h, s.f4, f);
  }

  lemma V3Planner(h: Host, f: Profile, s: Stage)
    requires NormalizeV3(h, f).Ok? && Stages(h, f, s)
    ensures Kept(h, f, PlannerObjectSchemas)
  {
    hide DefaultNavigation, Get, Truthy, DefaultWorkflowBindings, SynthesizeWorkflowDefinitions, NormalizeV3, FillWith,
      Fill, SynthesizeFrameworkBindings, SynthesizePlannerObjectSchemas, FillVersioning, Stages;
    EarlyAt(h, f, s, PlannerObjectSchemas);
    LateAt(h, f, s, PlannerObjectSchemas);
    EarlyAt(h, f, s, Terminology);
    LateAt(h, f, s, Terminology);
    EarlyAt(h, f, s, TemplateDefaults);
    LateAt(h, f, s, TemplateDefaults);
    EarlyAt(h, f, s, DocumentTypes);
    LateAt(h, f, s, DocumentTypes);
    LateAt(h, f, s, FrameworkBindings);
    MadeUp(h, f, s);
    var g := NormalizeV3(h, f).value;
    PlannerSource(f, g, s.f6);
    PlannerSame(h, s.f6, f[FrameworkBindings := Get(g, FrameworkBindings)]);
  }

  lemma V3Plain(h: Host, f: Profile, s: Stage, name: Section)
    requires NormalizeV3(h, f).Ok? && Stages(h, f, s) && name != Versioning
    requires name != WorkflowBindings && name != WorkflowDefinitions
    requires name != FrameworkBindings && name != PlannerObjectSchemas
    ensures Kept(h, f, name)
  {
    hide DefaultNavigation, Get, Truthy, DefaultWorkflowBindings, SynthesizeWorkflowDefinitions, NormalizeV3, FillWith,
      Fill, SynthesizeFrameworkBindings, SynthesizePlannerObjectSchemas, FillVersioning, Stages;
    EarlyAt(h, f, s, name);
    LateAt(h, f, s, name);
  }

  lemma PlannerSource(f: Profile, g: Profile, f6: Profile)
    requires Get(f6, Terminology) == Get(f, Terminology) && Get(f6, TemplateDefaults) == Get(f, TemplateDefaults)
    requires Get(f6, DocumentTypes) == Get(f, DocumentTypes) && Get(f6, FrameworkBindings) == Get(g, FrameworkBindings)
    ensures forall n | n in {Terminology, TemplateDefaults, FrameworkBindings, DocumentTypes} ::
              Get(f6, n) == Get(f[FrameworkBindings := Get(g, FrameworkBindings)], n)
  {
  }

  lemma FrameworkSource(f: Profile, f4: Profile)
    requires Get(f4, FrameworkDefaults) == Get(f, FrameworkDefaults)
        && Get(f4, ReportBindings) == Get(f, ReportBindings)
    requires Get(f4, FrameworkBindings) == Get(f, FrameworkBindings)
    ensures forall n | n in {FrameworkBindings, FrameworkDefaults, ReportBindings} :: Get(f4, n) == Get(f, n)
  {
  }

  /** A v3 profile's versioning says schema 3.0 and compatible with v3 unless it says otherwise itself. */
  lemma V3Versioning(h: Host, f: Profile)
    requires NormalizeV3(h, f).Ok? && (Get(f, Versioning).Obj? || Get(f, Versioning) == Null)
    ensures
      var was := if Get(f, Versioning).Obj? then Get(f, Versioning).fields else map[];
      var now := Get(NormalizeV3(h, f).value, Versioning);
      && now.Obj?
      && Get(now.fields, "schema_version")
         == (if IsBlank(Get(was, "schema_version")) then Str("3.0") else Get(was, "schema_version"))
      && Get(now.fields, "compatibility")
         == (if IsBlank(Get(was, "compatibility")) then Str("v3") else Get(was, "compatibility"))
      && forall n :: n != "schema_version" && n != "compatibility" ==> Get(now.fields, n) == Get(was, n)
  {
    VersioningFilled(f);
    hide NormalizeV3, IsBlank, DefaultNavigation, FillVersioning;
    var s := V3Stages(h, f);
    assert FillVersioning(f, None, "v3") == Ok(s.f1);
    hide Stages;
    EarlyAt(h, f, s, Versioning);
    LateAt(h, f, s, Versioning);
  }

  lemma VersioningFilled(f: Profile)
    requires Get(f, Versioning).Obj? || Get(f, Versioning) == Null
    ensures
      var was := if Get(f, Versioning).Obj? then Get(f, Versioning).fields else map[];
      var r := FillVersioning(f, None, "v3");
      && r.Ok?
      && var now := Get(r.value, Versioning);
         && now.Obj?
         && Get(now.fields, "schema_version")
            == (if IsBlank(Get(was, "schema_version")) then Str("3.0") else Get(was, "schema_version"))
         && Get(now.fields, "compatibility")
            == (if IsBlank(Get(was, "compatibility")) then Str("v3") else Get(was, "compatibility"))
         && forall n :: n != "schema_version" && n != "compatibility" ==> Get(now.fields, n) == Get(was, n)
  {
    hide IsBlank;
  }

  // ----- lifecycle states and validation

  /** A state of the lifecycle is kept; anything else makes a draft. */
  lemma StatusKept(h: Host, v: Json)
    ensures
      NormalizeStatus(h, v)
      == Str(if ToS(h, v) == "draft" || ToS(h, v) == "active" || ToS(h, v) == "deprecated" || ToS(h, v) == "frozen"
             then ToS(h, v) else "draft")
  {
    hide ToS;
  }

  /** Every schema is of a listed type. */
  predicate SchemasTyped(h: Host, types: Fields, schemas: Fields) {
    forall k | k in schemas ::
      schemas[k].Obj? && var t := ToS(h, Get(schemas[k].fields, "document_type")); !Blank(t) && t in types
  }

  /** A type lists a schema it defaults to and only schemas there are. */
  predicate TypeListed(h: Host, definition: Fields, schemas: Fields) {
    var allowed := ToArray(h, Get(definition, "allowed_schema_keys"));
    var default := ToS(h, Get(definition, "default_schema_key"));
    && allowed != [] && (forall i | 0 <= i < |allowed| :: ToS(h, allowed[i]) in schemas)
    && !Blank(default) && exists i :: 0 <= i < |allowed| && ToS(h, allowed[i]) == default
  }

  predicate AllListed(h: Host, types: Fields, schemas: Fields) {
    forall t | t in types :: types[t].Obj? && TypeListed(h, types[t].fields, schemas)
  }

  /** Every binding is of a listed type to a defined workflow. */
  predicate BindingsKnown(h: Host, types: Fields, bindings: Fields, definitions: Fields) {
    forall t | t in bindings :: t in types && ToS(h, bindings[t]) in definitions
  }

  /** The references of the sections: schemas to types, types to schemas, and bindings to types and workflows. */
  predicate Consistent(h: Host, types: Fields, schemas: Fields, bindings: Fields, definitions: Fields) {
    SchemasTyped(h, types, schemas) && AllListed(h, types, schemas) && BindingsKnown(h, types, bindings, definitions)
  }

  lemma EmptyUnion<T>(a: set<T>, b: set<T>, c: set<T>)
    ensures a + b + c == {} <==> a == {} && b == {} && c == {}
  {
    assert a <= a + b + c && b <= a + b + c && c <= a + b + c;
  }

  lemma NoErrorsIff(h: Host, types: Fields, schemas: Fields, bindings: Fields, definitions: Fields)
    requires AllObjects(types) && AllObjects(schemas)
    ensures SchemaErrors(h, types, schemas) + AllTypeErrors(h, types, schemas)
              + BindingErrors(h, types, bindings, definitions) == {}
       <==> Consistent(h, types, schemas, bindings, definitions)
  {
    SchemaErrorsIff(h, types, schemas);
    AllTypeErrorsIff(h, types, schemas);
    BindingErrorsIff(h, types, bindings, definitions);
    hide SchemaErrors, AllTypeErrors, BindingErrors, SchemasTyped, AllListed, BindingsKnown, AllObjects;
    EmptyUnion(SchemaErrors(h, types, schemas), AllTypeErrors(h, types, schemas),
      BindingErrors(h, types, bindings, definitions));
  }

  lemma AllTypeErrorsIff(h: Host, types: Fields, schemas: Fields)
    requires AllObjects(types)
    ensures AllTypeErrors(h, types, schemas) == {} <==> AllListed(h, types, schemas)
  {
    hide TypeErrors, TypeListed;
    forall t | t in types
      ensures TypeErrors(h, t, types[t].fields, schemas) == {} <==> TypeListed(h, types[t].fields, schemas)
      ensures TypeErrors(h, t, types[t].fields, schemas) <= AllTypeErrors(h, types, schemas)
    {
      TypeErrorsIff(h, t, types[t].fields, schemas);
    }
    if AllListed(h, types, schemas) {
      assert forall t | t in types :: TypeErrors(h, t, types[t].fields, schemas) == {};
    }
  }

  lemma SchemaErrorsIff(h: Host, types: Fields, schemas: Fields)
    requires AllObjects(schemas)
    ensures SchemaErrors(h, types, schemas) == {} <==> SchemasTyped(h, types, schemas)
  {
    hide ToS, Blank;
    forall k | k in schemas
        && (Blank(DocumentTypeOf(h, schemas[k].fields)) || DocumentTypeOf(h, schemas[k].fields) !in types)
      ensures SchemaTypeUnknown(k) in SchemaErrors(h, types, schemas)
    {
    }
  }

  lemma BindingErrorsIff(h: Host, types: Fields, bindings: Fields, definitions: Fields)
    ensures BindingErrors(h, types, bindings, definitions) == {} <==> BindingsKnown(h, types, bindings, definitions)
  {
    hide ToS;
    forall t | t in bindings && t !in types
      ensures BindingTypeUnknown(t) in BindingErrors(h, types, bindings, definitions)
    {
    }
    forall t | t in bindings && ToS(h, bindings[t]) !in definitions
      ensures BindingWorkflowUnknown(t, ToS(h, bindings[t])) in BindingErrors(h, types, bindings, definitions)
    {
    }
  }

  lemma TypeErrorsIff(h: Host, t: string, definition: Fields, schemas: Fields)
    ensures TypeErrors(h, t, definition, schemas) == {} <==> TypeListed(h, definition, schemas)
  {
    hide ToS, ToArray, Blank, Get;
    var items := ToArray(h, Get(definition, "allowed_schema_keys"));
    var allowed := AllowedKeys(h, definition);
    assert items == [] <==> allowed == {} by { if items != [] { assert ToS(h, items[0]) in allowed; } }
    forall k | k in allowed && k !in schemas
      ensures AllowedUnknown(t, k) in TypeErrors(h, t, definition, schemas)
    {
    }
    assert forall i | 0 <= i < |items| :: ToS(h, items[i]) in allowed;
  }

  /** A profile validates iff it normalises to one with all fourteen sections, visible names, a lifecycle state, hashes
      where hashes belong, consistent references, and no complaint from the schema and the content rules. */
  lemma ValidatesIff(h: Host, p: Profile)
    ensures
      Validate(h, p).Some? <==>
        && Normalize(h, p).Ok?
        && var q := Normalize(h, p).value;
           && NamesRelease(q) && !Blank(ProfileKey(q)) && !Blank(ProfileVersion(q))
           && Identity in q && Versioning in q && Terminology in q && Navigation in q && PlannerObjectSchemas in q
           && DocumentTypes in q && DocumentSchemas in q && WorkflowDefinitions in q && WorkflowBindings in q
           && FrameworkBindings in q && ReportBindings in q && CapabilityModules in q && IntegrationHints in q
           && ProfileStatus in q
           && ToS(h, Get(q, ProfileStatus)) in {"draft", "active", "deprecated", "frozen"}
           && Get(q, Navigation).Obj? && Get(q, PlannerObjectSchemas).Obj?
           && Get(q, DocumentTypes).Obj? && Get(q, DocumentSchemas).Obj?
           && HashOrEmpty(Get(q, WorkflowBindings)).Ok? && HashOrEmpty(Get(q, WorkflowDefinitions)).Ok?
           && Consistent(h, Get(q, DocumentTypes).fields, Get(q, DocumentSchemas).fields,
                HashOrEmpty(Get(q, WorkflowBindings)).value, HashOrEmpty(Get(q, WorkflowDefinitions)).value)
           && h.schemaOk(q)
    ensures Validate(h, p).Some? ==> Normalize(h, p) == Ok(Validate(h, p).value)
  {
    hide Normalize, ToS, Blank, Consistent, SchemaErrors, AllTypeErrors, BindingErrors, NamesRelease, ProfileKey,
      ProfileVersion;
    if Normalize(h, p).Ok? {
      var q := Normalize(h, p).value;
      if Get(q, DocumentTypes).Obj? && Get(q, DocumentSchemas).Obj? && HashOrEmpty(Get(q, WorkflowBindings)).Ok?
         && HashOrEmpty(Get(q, WorkflowDefinitions)).Ok? {
        var types, schemas := Get(q, DocumentTypes).fields, Get(q, DocumentSchemas).fields;
        if AllObjects(types) && AllObjects(schemas) {
          NoErrorsIff(h, types, schemas, HashOrEmpty(Get(q, WorkflowBindings)).value,
            HashOrEmpty(Get(q, WorkflowDefinitions)).value);
        } else {
          NotConsistent(h, types, schemas, HashOrEmpty(Get(q, WorkflowBindings)).value,
            HashOrEmpty(Get(q, WorkflowDefinitions)).value);
        }
      }
    }
  }

  lemma NotConsistent(h: Host, types: Fields, schemas: Fields, bindings: Fields, definitions: Fields)
    requires !AllObjects(types) || !AllObjects(schemas)
    ensures !Consistent(h, types, schemas, bindings, definitions)
  {
    hide ToS, ToArray, Blank;
  }
}
