/** What a normalised profile says: every value it takes from the profile given, and every default. */
module RegistryValues {
  import opened Wrappers
  import opened Registry
  import opened RegistryTheorems

  // ----- lists without repetition

  predicate NoRepeats(vs: seq<Json>) { forall i, j | 0 <= i < j < |vs| :: vs[i] != vs[j] }

  /** `uniq`: the same values, each once, in the order of their first occurrences. */
  lemma {:induction false} UniqOnce(vs: seq<Json>)
    ensures NoRepeats(Uniq(vs)) && forall v :: v in Uniq(vs) <==> v in vs
    ensures forall n | 0 <= n <= |vs| :: Uniq(vs[..n]) <= Uniq(vs)
  {
    if vs != [] {
      var init, last := vs[..|vs| - 1], vs[|vs| - 1];
      UniqOnce(init);
      assert forall v :: v in vs <==> v in init || v == last;
      forall n | 0 <= n <= |vs|
        ensures Uniq(vs[..n]) <= Uniq(vs)
      {
        if n < |vs| {
          assert init[..n] == vs[..n];
        } else {
          assert vs[..n] == vs;
        }
      }
    }
  }

  predicate AllStrings(vs: seq<Json>) { forall v | v in vs :: v.Str? }

  lemma StringsOfStrings(h: Host, vs: seq<Json>)
    requires AllStrings(vs)
    ensures Strings(h, vs) == vs
  {
    assert forall i | 0 <= i < |vs| :: vs[i] in vs;
  }

  lemma StringsAreStrings(h: Host, vs: seq<Json>)
    ensures AllStrings(Strings(h, vs)) && AllStrings(Uniq(Strings(h, vs)))
  {
    UniqOnce(Strings(h, vs));
  }

  // ----- a v1 profile

  predicate V1Shape(p: Profile) { !V3Shape(p) && !V2Shape(p) }

  /** The options a v1 profile lists under a name: a list's items as strings, nothing when there are none. */
  function Listed(h: Host, p: Profile, name: Section): Json { Arr(Strings(h, ToArray(h, Get(p, name)))) }

  function OrHash(v: Json): Json { if v == Null || v == Bool(false) then Obj(map[]) else v }

  /** A label of the v1 taxonomy, or its default. */
  function TaxonomyLabel(p: Profile, name: string, default: string): Json {
    match Index(OrHash(Get(p, PlannerTaxonomy)), name)
    case Ok(v) => if v == Null || v == Bool(false) then Str(default) else v
    case Raised => Str(default)
  }

  function UnitFields(h: Host, p: Profile): (fields: seq<Json>)
    ensures |fields| == 3
  {
    [ Obj(map["id" := Str("subject"), "label" := TaxonomyLabel(p, "subject_label", "Subject"),
              "component" := Str("select"), "required" := Bool(true), "options" := Listed(h, p, SubjectOptions)]),
      Obj(map["id" := Str("grade_or_stage"), "label" := TaxonomyLabel(p, "grade_label", "Grade Level"),
              "component" := Str("select"), "required" := Bool(true), "options" := Listed(h, p, GradeOptions)]),
      Obj(map["id" := Str("title"), "label" := Str(ToS(h, TaxonomyLabel(p, "unit_label", "Unit")) + " Title"),
              "component" := Str("text"), "required" := Bool(true)]) ]
  }

  lemma LabelRead(p: Profile, name: string, default: string)
    ensures
      var found := LabelOr(Either(Get(p, PlannerTaxonomy), Obj(map[])), name, default);
      found.Ok? ==> found.value == TaxonomyLabel(p, name, default)
  {
  }

  lemma UnitFieldsBuilt(h: Host, p: Profile)
    ensures
      var subject, grade :=
          TaxonomyLabel(p, "subject_label", "Subject"), TaxonomyLabel(p, "grade_label", "Grade Level");
      UnitFields(h, p)
      == [WithOptions(Field("subject", subject, "select"), Strings(h, ToArray(h, Get(p, SubjectOptions)))),
          WithOptions(Field("grade_or_stage", grade, "select"), Strings(h, ToArray(h, Get(p, GradeOptions)))),
          Field("title", Str(ToS(h, TaxonomyLabel(p, "unit_label", "Unit")) + " Title"), "text")]
  {
    hide TaxonomyLabel, Strings, ToArray, ToS, Get;
  }

  /** A v1 profile is lifted to v2: its names, */
  lemma V1Names(h: Host, p: Profile)
    requires AdaptV1(h, p).Ok?
    ensures
      var r := AdaptV1(h, p);
      && Get(r.value, Identity) == Obj(map["key" := Get(p, Key), "label" := Get(p, Label),
           "description" := Get(p, Description), "jurisdiction" := Get(p, Jurisdiction)])
      && Get(r.value, Versioning) == Obj(map["version" := Get(p, Version), "compatibility" := Str("v1_compatible"),
           "schema_version" := Str("2.0")])
  {
    LabelRead(p, "subject_label", "Subject");
    LabelRead(p, "grade_label", "Grade Level");
    LabelRead(p, "unit_label", "Unit");
    hide Strings, ToArray, ToS, DefaultNavigation, LabelOr, TaxonomyLabel, UnitFields, WithOptions, Field, Either;
  }

  /** its terms, */
  lemma V1Terms(h: Host, p: Profile)
    requires AdaptV1(h, p).Ok?
    ensures
      var r := AdaptV1(h, p);
      && Get(r.value, Terminology) == Obj(map["subject_label" := TaxonomyLabel(p, "subject_label", "Subject"),
           "grade_label" := TaxonomyLabel(p, "grade_label", "Grade Level"),
           "unit_label" := TaxonomyLabel(p, "unit_label", "Unit")])
  {
    LabelRead(p, "subject_label", "Subject");
    LabelRead(p, "grade_label", "Grade Level");
    LabelRead(p, "unit_label", "Unit");
    hide Strings, ToArray, ToS, DefaultNavigation, LabelOr, TaxonomyLabel, UnitFields, WithOptions, Field;
  }

  /** its planner objects, */
  lemma V1Plans(h: Host, p: Profile)
    requires AdaptV1(h, p).Ok?
    ensures
      var r := AdaptV1(h, p);
      && Get(r.value, PlannerObjectSchemas) == V1Planner(h, p)
  {
    LabelRead(p, "subject_label", "Subject");
    LabelRead(p, "grade_label", "Grade Level");
    LabelRead(p, "unit_label", "Unit");
    UnitFieldsBuilt(h, p);
    LessonFieldBuilt();
    assert Either(Get(p, TemplateDefaults), Obj(map[])) == OrHash(Get(p, TemplateDefaults));
    hide Strings, ToArray, ToS, DefaultNavigation, LabelOr, TaxonomyLabel, UnitFields, WithOptions, Field;
  }

  /** its frameworks, */
  lemma V1Frameworks(h: Host, p: Profile)
    requires AdaptV1(h, p).Ok?
    ensures
      var r := AdaptV1(h, p);
      && Get(r.value, ReportBindings)
         == Obj(map["standards_coverage" := Obj(map["default_frameworks" := Listed(h, p, FrameworkDefaults)])])
  {
    LabelRead(p, "subject_label", "Subject");
    LabelRead(p, "grade_label", "Grade Level");
    LabelRead(p, "unit_label", "Unit");
    hide Strings, ToArray, ToS, DefaultNavigation, LabelOr, TaxonomyLabel, UnitFields, WithOptions, Field, Either;
  }

  /** and its status; the rest is for the lifting of v2 profiles. */
  lemma V1Status(h: Host, p: Profile)
    requires AdaptV1(h, p).Ok?
    ensures
      var r := AdaptV1(h, p);
      && Get(r.value, ProfileStatus) == Either(Get(p, ProfileStatus), Str("active"))
  {
    LabelRead(p, "subject_label", "Subject");
    LabelRead(p, "grade_label", "Grade Level");
    LabelRead(p, "unit_label", "Unit");
    hide Strings, ToArray, ToS, DefaultNavigation, LabelOr, TaxonomyLabel, UnitFields, WithOptions, Field, Either;
  }

  lemma V1Absent(h: Host, p: Profile)
    requires AdaptV1(h, p).Ok?
    ensures
      var r := AdaptV1(h, p);
      && FrameworkBindings !in r.value && FrameworkDefaults !in r.value && TemplateDefaults !in r.value
  {
    LabelRead(p, "subject_label", "Subject");
    LabelRead(p, "grade_label", "Grade Level");
    LabelRead(p, "unit_label", "Unit");
    hide Strings, ToArray, ToS, DefaultNavigation, LabelOr, TaxonomyLabel, UnitFields, WithOptions, Field, Either;
  }

  lemma LessonFieldBuilt()
    ensures
      Field("title", Str("Lesson Title"), "text")
      == Obj(map["id" := Str("title"), "label" := Str("Lesson Title"), "component" := Str("text"),
                 "required" := Bool(true)])
  {
  }

  function V1Planner(h: Host, p: Profile): Json {
    Obj(map[
      "unit_plan" := Obj(map["fields" := Arr(UnitFields(h, p))]),
      "template" := Obj(map["defaults" := OrHash(Get(p, TemplateDefaults)), "tags" := Listed(h, p, FrameworkDefaults)]),
      "lesson_plan" := Obj(map["fields" := Arr([Obj(map["id" := Str("title"), "label" := Str("Lesson Title"),
        "component" := Str("text"), "required" := Bool(true)])])])])
  }

  // ----- frameworks

  /** Where the framework defaults come from: the bindings' own, else the profile's, else those of the coverage
      report. */
  predicate DefaultsFrom(f: Profile, source: Json) {
    var own := Dig(Get(f, FrameworkBindings), "defaults");
    var coverage := Dig2(Get(f, ReportBindings), "standards_coverage", "default_frameworks");
    if own.Ok? && Truthy(own.value) then source == own.value
    else if Truthy(Get(f, FrameworkDefaults)) then source == Get(f, FrameworkDefaults)
    else coverage == Ok(source)
  }

  /** The framework bindings list the defaults as strings, each once; allow those and what was allowed before; and
      name the node kinds given, or the standard one. */
  lemma FrameworksBound(h: Host, f: Profile) returns (source: Json, allowed: seq<Json>)
    requires SynthesizeFrameworkBindings(h, f).Ok?
    ensures DefaultsFrom(f, source)
    ensures
      var bindings := SynthesizeFrameworkBindings(h, f).value;
      && bindings.Obj? && bindings.fields.Keys == {"defaults", "allowed", "node_kinds"}
      && bindings.fields["defaults"] == Arr(Uniq(Strings(h, ToArray(h, source))))
      && bindings.fields["allowed"] == Arr(allowed) && NoRepeats(allowed)
      && (forall v :: v in allowed <==>
            || v in Strings(h, ToArray(h, source))
            || v in Strings(h, ToArray(h, Dig(Get(f, FrameworkBindings), "allowed").value)))
      && var kinds := ToArray(h, Dig(Get(f, FrameworkBindings), "node_kinds").value);
         bindings.fields["node_kinds"] == (if kinds == [] then Arr([Str("standard")]) else Arr(kinds))
  {
    source := FrameworksMade(h, f);
    hide DefaultsFrom, SynthesizeFrameworkBindings, Strings, ToArray, Get, Dig;
    var before := Strings(h, ToArray(h, Dig(Get(f, FrameworkBindings), "allowed").value));
    var kinds := ToArray(h, Dig(Get(f, FrameworkBindings), "node_kinds").value);
    allowed := Uniq(before + Uniq(Strings(h, ToArray(h, source))));
    UniqOnce(Strings(h, ToArray(h, source)));
    UniqOnce(before + Uniq(Strings(h, ToArray(h, source))));
    StandardUnlessPresent(kinds);
    hide Uniq, PresentOr;
  }

  lemma StandardUnlessPresent(kinds: seq<Json>)
    ensures PresentOr(Arr(kinds), StrArr(["standard"])) == if kinds == [] then Arr([Str("standard")]) else Arr(kinds)
  {
    assert StrArr(["standard"]) == Arr([Str("standard")]);
  }

  lemma FrameworksMade(h: Host, f: Profile) returns (source: Json)
    requires SynthesizeFrameworkBindings(h, f).Ok?
    ensures DefaultsFrom(f, source)
    ensures Dig(Get(f, FrameworkBindings), "allowed").Ok? && Dig(Get(f, FrameworkBindings), "node_kinds").Ok?
    ensures
      var defaults := Uniq(Strings(h, ToArray(h, source)));
      var before := Strings(h, ToArray(h, Dig(Get(f, FrameworkBindings), "allowed").value));
      var kinds := ToArray(h, Dig(Get(f, FrameworkBindings), "node_kinds").value);
      SynthesizeFrameworkBindings(h, f).value
      == Obj(map["defaults" := Arr(defaults), "allowed" := Arr(Uniq(before + defaults)),
                 "node_kinds" := PresentOr(Arr(kinds), StrArr(["standard"]))])
  {
    hide Strings, ToArray, Get, Uniq, PresentOr, StrArr;
    var own := Dig(Get(f, FrameworkBindings), "defaults").value;
    source := if Truthy(own) then own else if Truthy(Get(f, FrameworkDefaults)) then Get(f, FrameworkDefaults)
      else Dig2(Get(f, ReportBindings), "standards_coverage", "default_frameworks").value;
  }

  // ----- lifting a v2 profile

  const LIFTED := {
    Versioning, DocumentSchemas, DocumentTypes, WorkflowBindings, WorkflowDefinitions, FrameworkBindings,
    ReportBindings, IntegrationHints, Navigation, CapabilityModules}

  /** Every other section is left as it is; of these, the ones a v2 profile may bring are kept when it does. */
  lemma V2Keeps(h: Host, f: Profile, name: Section)
    requires NormalizeV2(h, f).Ok?
    ensures
      var g := NormalizeV2(h, f).value;
      && (name !in LIFTED ==> Get(g, name) == Get(f, name))
      && (name in {ReportBindings, IntegrationHints, CapabilityModules} ==> Get(g, name) == OrHash(Get(f, name)))
      && (name == Navigation ==>
            Get(g, name) == if Truthy(Get(f, name)) then Get(f, name) else DefaultNavigation())
      && (name == FrameworkBindings ==> SynthesizeFrameworkBindings(h, f) == Ok(Get(g, name)))
  {
    FrameworksUnversioned(h, f);
    var f1 := FillVersioning(f, Some("3.0"), "v2_only").value;
    VersioningAlone(f, Some("3.0"), "v2_only", name);
    SynthesisKeeps(h, f1, name);
    V2Fills(h, f, name);
    FalsyOrHash(Get(f, name));
    hide DefaultNavigation, SynthesizeFromV2, FillVersioning, SynthesizeFrameworkBindings, NormalizeV2, Get, Truthy,
      OrHash;
  }

  /** The four sections a lift fills in last. */
  lemma V2Fills(h: Host, f: Profile, name: Section)
    requires NormalizeV2(h, f).Ok?
    ensures
      var f1 := FillVersioning(f, Some("3.0"), "v2_only").value;
      var f2 := SynthesizeFromV2(h, f1).value;
      FillVersioning(f, Some("3.0"), "v2_only").Ok? && SynthesizeFromV2(h, f1).Ok?
      && Get(NormalizeV2(h, f).value, name)
         == (if Truthy(Get(f2, name)) then Get(f2, name)
             else if name == ReportBindings || name == IntegrationHints || name == CapabilityModules then Obj(map[])
             else if name == Navigation then DefaultNavigation() else Get(f2, name))
  {
    hide DefaultNavigation, SynthesizeFromV2, FillVersioning, Fill, Get, Truthy;
    var f2 := SynthesizeFromV2(h, FillVersioning(f, Some("3.0"), "v2_only").value).value;
    var nav, empty := DefaultNavigation(), Obj(map[]);
    var a := Fill(f2, ReportBindings, empty);
    var b := Fill(a, IntegrationHints, empty);
    var c := Fill(b, Navigation, nav);
    FilledAt(f2, ReportBindings, empty, name);
    FilledAt(a, IntegrationHints, empty, name);
    FilledAt(b, Navigation, nav, name);
    FilledAt(c, CapabilityModules, empty, name);
    assert NormalizeV2(h, f).value == Fill(c, CapabilityModules, empty);
  }

  lemma FalsyOrHash(v: Json)
    ensures OrHash(v) == if Truthy(v) then v else Obj(map[])
  {
  }

  lemma FilledAt(f: Profile, at: Section, v: Json, name: Section)
    ensures Get(Fill(f, at, v), name) == if name == at && !Truthy(Get(f, at)) then v else Get(f, name)
  {
  }

  lemma VersioningAlone(f: Profile, schemaVersion: Option<string>, compatibility: string, name: Section)
    requires FillVersioning(f, schemaVersion, compatibility).Ok?
    ensures name != Versioning ==> Get(FillVersioning(f, schemaVersion, compatibility).value, name) == Get(f, name)
  {
  }

  lemma SynthesisKeeps(h: Host, f: Profile, name: Section)
    requires SynthesizeFromV2(h, f).Ok?
    ensures
      var g := SynthesizeFromV2(h, f).value;
      && (name !in {DocumentSchemas, DocumentTypes, WorkflowBindings, WorkflowDefinitions, FrameworkBindings} ==>
            Get(g, name) == Get(f, name))
      && (name == FrameworkBindings ==> SynthesizeFrameworkBindings(h, f) == Ok(Get(g, name)))
  {
    hide SynthesizeDocumentSchemas, SynthesizeDocumentTypes, DefaultWorkflowBindings, SynthesizeWorkflowDefinitions,
      SynthesizeFrameworkBindings;
  }

  lemma FrameworksUnversioned(h: Host, f: Profile)
    requires NormalizeV2(h, f).Ok?
    ensures
      var f1 := FillVersioning(f, Some("3.0"), "v2_only").value;
      FillVersioning(f, Some("3.0"), "v2_only").Ok? && SynthesizeFromV2(h, f1).Ok?
      && SynthesizeFrameworkBindings(h, f1) == SynthesizeFrameworkBindings(h, f)
  {
    V2Parts(h, f);
    VersioningAlone(f, Some("3.0"), "v2_only", FrameworkBindings);
    VersioningAlone(f, Some("3.0"), "v2_only", FrameworkDefaults);
    VersioningAlone(f, Some("3.0"), "v2_only", ReportBindings);
    hide *;
    SameBindings(h, FillVersioning(f, Some("3.0"), "v2_only").value, f);
  }

  lemma SameBindings(h: Host, f: Profile, g: Profile)
    requires Get(f, FrameworkBindings) == Get(g, FrameworkBindings)
    requires Get(f, FrameworkDefaults) == Get(g, FrameworkDefaults)
    requires Get(f, ReportBindings) == Get(g, ReportBindings)
    ensures SynthesizeFrameworkBindings(h, f) == SynthesizeFrameworkBindings(h, g)
  {
    hide Get, Strings, Uniq, ToArray, Dig, Truthy;
  }

  lemma V2Parts(h: Host, f: Profile)
    requires NormalizeV2(h, f).Ok?
    ensures FillVersioning(f, Some("3.0"), "v2_only").Ok?
    ensures SynthesizeFromV2(h, FillVersioning(f, Some("3.0"), "v2_only").value).Ok?
  {
    hide FillVersioning, SynthesizeFromV2, DefaultNavigation;
  }

  /** A lifted profile is of schema 3.0, says what it is compatible with or that it is v2 only, and keeps the rest of
      its versioning. */
  lemma V2Versioning(h: Host, f: Profile)
    requires NormalizeV2(h, f).Ok? && Get(f, Versioning).Obj?
    ensures
      var was, now := Get(f, Versioning).fields, Get(NormalizeV2(h, f).value, Versioning);
      && now.Obj? && Get(now.fields, "schema_version") == Str("3.0")
      && Get(now.fields, "compatibility")
         == (if IsBlank(Get(was, "compatibility")) then Str("v2_only") else Get(was, "compatibility"))
      && forall n :: n != "schema_version" && n != "compatibility" ==> Get(now.fields, n) == Get(was, n)
  {
    hide DefaultNavigation, SynthesizeFromV2, IsBlank;
    SynthesisUntouched(h, FillVersioning(f, Some("3.0"), "v2_only").value);
  }

  // ----- the keys a v1 reader expects

  /** The options of the first field of an id, as strings; none when there is no such field. */
  predicate FieldOptions(h: Host, fields: seq<Json>, id: string, options: Json) {
    && (forall i | 0 <= i < |fields| && Index(fields[i], "id") == Ok(Str(id))
                   && (forall j | 0 <= j < i :: Index(fields[j], "id") != Ok(Str(id))) ::
          Dig(fields[i], "options").Ok? && options == Arr(Strings(h, ToArray(h, Dig(fields[i], "options").value))))
    && ((forall i | 0 <= i < |fields| :: Index(fields[i], "id") != Ok(Str(id))) ==> options == Arr([]))
  }

  lemma {:induction false} FieldFound(fields: seq<Json>, id: string)
    requires FindField(fields, id).Ok?
    ensures forall i | 0 <= i < |fields| && Index(fields[i], "id") == Ok(Str(id))
                       && (forall j | 0 <= j < i :: Index(fields[j], "id") != Ok(Str(id))) ::
              FindField(fields, id) == Ok(fields[i])
    ensures (forall i | 0 <= i < |fields| :: Index(fields[i], "id") != Ok(Str(id))) ==>
        FindField(fields, id) == Ok(Null)
  {
    hide Index;
    if fields != [] && Index(fields[0], "id") != Ok(Str(id)) {
      FieldFound(fields[1..], id);
      assert forall i | 0 <= i < |fields[1..]| :: fields[1..][i] == fields[i + 1];
      forall i | 0 <= i < |fields| && Index(fields[i], "id") == Ok(Str(id))
                 && (forall j | 0 <= j < i :: Index(fields[j], "id") != Ok(Str(id)))
        ensures FindField(fields, id) == Ok(fields[i])
      {
        assert i > 0 && fields[1..][i - 1] == fields[i];
        assert forall j | 0 <= j < i - 1 :: fields[1..][j] == fields[j + 1];
      }
    }
  }

  lemma OptionsFound(h: Host, fields: seq<Json>, id: string)
    requires OptionsOf(h, fields, id).Ok?
    ensures FieldOptions(h, fields, id, OptionsOf(h, fields, id).value)
  {
    FieldFound(fields, id);
    hide FindField, Index;
    assert Strings(h, ToArray(h, Null)) == [];
  }

  /** The framework defaults shown to a v1 reader: the bindings', else the tags of the template, else those of the
      coverage report. */
  predicate FrameworksFrom(planner: Json, bindings: Json, reports: Json, source: Json) {
    var own, tags := Dig(bindings, "defaults"), Dig2(planner, "template", "tags");
    var coverage := Dig2(reports, "standards_coverage", "default_frameworks");
    if own.Ok? && Truthy(own.value) then source == own.value
    else if tags.Ok? && Truthy(tags.value) then source == tags.value
    else coverage == Ok(source)
  }

  // What each of these keys says, read off the section it comes from.

  lemma NamesRead(h: Host, identity: Json, versioning: Json, terminology: Json, planner: Json,
    bindings: Json, reports: Json)
    requires LegacySections(h, identity, versioning, terminology, planner, bindings, reports).Ok?
    ensures
      var k := LegacySections(h, identity, versioning, terminology, planner, bindings, reports).value;
      && k.Keys == LEGACY_KEYS - {TemplateDefaults}
      && Index(identity, "key") == Ok(k[Key]) && Index(identity, "label") == Ok(k[Label])
      && Index(versioning, "version") == Ok(k[Version])
  {
    hide Strings, ToArray, OptionsOf, FieldOptions, LabelOr, Index, Dig2, Dig, Truthy;
  }

  lemma PlaceRead(h: Host, identity: Json, versioning: Json, terminology: Json, planner: Json,
    bindings: Json, reports: Json)
    requires LegacySections(h, identity, versioning, terminology, planner, bindings, reports).Ok?
    ensures
      var k := LegacySections(h, identity, versioning, terminology, planner, bindings, reports).value;
      && k.Keys == LEGACY_KEYS - {TemplateDefaults}
      && Index(identity, "description") == Ok(k[Description]) && Index(identity, "jurisdiction") == Ok(k[Jurisdiction])
  {
    hide Strings, ToArray, OptionsOf, FieldOptions, LabelOr, Index, Dig2, Dig, Truthy;
  }

  lemma TaxonomyKeyRead(h: Host, identity: Json, versioning: Json, terminology: Json, planner: Json,
    bindings: Json, reports: Json)
    requires LegacySections(h, identity, versioning, terminology, planner, bindings, reports).Ok?
    ensures
      var k := LegacySections(h, identity, versioning, terminology, planner, bindings, reports).value;
      && k.Keys == LEGACY_KEYS - {TemplateDefaults}
      && k[PlannerTaxonomy].Obj? && k[PlannerTaxonomy].fields.Keys == {"subject_label", "grade_label", "unit_label"}
      && LabelOr(terminology, "subject_label", "Subject") == Ok(k[PlannerTaxonomy].fields["subject_label"])
      && LabelOr(terminology, "grade_label", "Grade Level") == Ok(k[PlannerTaxonomy].fields["grade_label"])
      && LabelOr(terminology, "unit_label", "Unit") == Ok(k[PlannerTaxonomy].fields["unit_label"])
  {
    hide Strings, ToArray, OptionsOf, FieldOptions, LabelOr, Index, Dig2, Dig, Truthy;
  }

  lemma OptionKeysRead(h: Host, identity: Json, versioning: Json, terminology: Json, planner: Json,
    bindings: Json, reports: Json) returns (raw: Json)
    requires LegacySections(h, identity, versioning, terminology, planner, bindings, reports).Ok?
    ensures
      var k := LegacySections(h, identity, versioning, terminology, planner, bindings, reports).value;
      && k.Keys == LEGACY_KEYS - {TemplateDefaults} && Dig2(planner, "unit_plan", "fields") == Ok(raw)
      && FieldOptions(h, ToArray(h, raw), "subject", k[SubjectOptions])
      && FieldOptions(h, ToArray(h, raw), "grade_or_stage", k[GradeOptions])
  {
    hide Strings, ToArray, OptionsOf, FieldOptions, LabelOr, Index, Dig2, Dig, Truthy;
    raw := Dig2(planner, "unit_plan", "fields").value;
    OptionsFound(h, ToArray(h, raw), "subject");
    OptionsFound(h, ToArray(h, raw), "grade_or_stage");
  }

  lemma FrameworkKeyRead(h: Host, identity: Json, versioning: Json, terminology: Json, planner: Json,
    bindings: Json, reports: Json) returns (source: Json)
    requires LegacySections(h, identity, versioning, terminology, planner, bindings, reports).Ok?
    ensures
      var k := LegacySections(h, identity, versioning, terminology, planner, bindings, reports).value;
      && k.Keys == LEGACY_KEYS - {TemplateDefaults}
      && FrameworksFrom(planner, bindings, reports, source)
      && k[FrameworkDefaults] == Arr(Strings(h, ToArray(h, source)))
  {
    var own := Dig(bindings, "defaults").value;
    source := if Truthy(own) then own
      else if Truthy(Dig2(planner, "template", "tags").value) then Dig2(planner, "template", "tags").value
      else Dig2(reports, "standards_coverage", "default_frameworks").value;
    hide Strings, ToArray, OptionsOf, FieldOptions, LabelOr, Index, Dig, Truthy;
  }

  // ----- a whole normalisation

  /** What normalising adds to the reshaped profile: a lifecycle state and the compatibility keys. */
  lemma Overlaid(h: Host, p: Profile)
    requires Normalize(h, p).Ok?
    ensures
      var q, f := Normalize(h, p).value, Reshape(h, p).value;
      && Reshape(h, p).Ok?
      && (forall n | n !in LEGACY_KEYS && n != ProfileStatus :: Get(q, n) == Get(f, n))
      && Get(q, ProfileStatus) == NormalizeStatus(h, Get(f, ProfileStatus))
  {
    var f := Reshape(h, p).value;
    var status := NormalizeStatus(h, Get(f, ProfileStatus));
    LegacyKeysStable(h, f[ProfileStatus := status]);
    var legacy := LegacyKeys(h, f[ProfileStatus := status]).value;
    forall n
      ensures n !in LEGACY_KEYS ==>
        Get(f[ProfileStatus := status] + legacy, n) == if n == ProfileStatus then status else Get(f, n)
    {
      if n !in LEGACY_KEYS { OverlayLookup(f, status, legacy, n); }
    }
    NotLegacy();
    hide Reshape, LegacyKeys, NormalizeStatus, Get, LEGACY_KEYS;
  }

  /** The template defaults: those of the planner objects, else the ones there were. */
  predicate TemplateDefaultsFrom(planner: Json, own: Json, defaults: Json) {
    var found := Dig2(OrHash(planner), "template", "defaults");
    found.Ok? && defaults == if Truthy(found.value) then found.value else OrHash(own)
  }

  /** The compatibility keys are read off the sections of the profile they are added to. */
  lemma KeysOverlaid(h: Host, p: Profile) returns (k: Profile)
    requires Normalize(h, p).Ok?
    ensures
      var q := Normalize(h, p).value;
      LegacySections(h, OrHash(Get(q, Identity)), OrHash(Get(q, Versioning)), OrHash(Get(q, Terminology)),
        OrHash(Get(q, PlannerObjectSchemas)), Get(q, FrameworkBindings), Get(q, ReportBindings))
      == Ok(k)
    ensures forall n | n in k :: Get(Normalize(h, p).value, n) == k[n]
    ensures
      Reshape(h, p).Ok?
      && TemplateDefaultsFrom(Get(Normalize(h, p).value, PlannerObjectSchemas),
           Get(Reshape(h, p).value, TemplateDefaults), Get(Normalize(h, p).value, TemplateDefaults))
  {
    hide LegacySections, Reshape, LegacyKeys, TemplateDefaultsFrom, NormalizeStatus;
    var f := Reshape(h, p).value;
    k := KeysOnTop(h, f[ProfileStatus := NormalizeStatus(h, Get(f, ProfileStatus))]);
  }

  lemma KeysOnTop(h: Host, g: Profile) returns (k: Profile)
    requires LegacyKeys(h, g).Ok?
    ensures
      var q := g + LegacyKeys(h, g).value;
      && LegacySections(h, OrHash(Get(q, Identity)), OrHash(Get(q, Versioning)), OrHash(Get(q, Terminology)),
           OrHash(Get(q, PlannerObjectSchemas)), Get(q, FrameworkBindings), Get(q, ReportBindings))
         == Ok(k)
      && (forall n | n in k :: Get(q, n) == k[n])
      && TemplateDefaultsFrom(Get(q, PlannerObjectSchemas), Get(g, TemplateDefaults), Get(q, TemplateDefaults))
  {
    KeysMade(h, g);
    LegacyKeysStable(h, g);
    var legacy := LegacyKeys(h, g).value;
    SectionsStay(g, legacy);
    hide LegacySections, LegacyKeys, OrHash, Dig2, Truthy, Get;
    k := LegacySections(h, OrHash(Get(g, Identity)), OrHash(Get(g, Versioning)), OrHash(Get(g, Terminology)),
      OrHash(Get(g, PlannerObjectSchemas)), Get(g, FrameworkBindings), Get(g, ReportBindings)).value;
    OverlayKeeps(g, legacy);
    hide LEGACY_KEYS;
    assert TemplateDefaults !in k && forall n | n in k :: n in legacy && legacy[n] == k[n] by { NoTemplateDefaults(k); }
  }

  lemma NoTemplateDefaults(k: Profile)
    requires k.Keys == LEGACY_KEYS - {TemplateDefaults}
    ensures TemplateDefaults !in k
  {
  }

  lemma OverlayKeeps(g: Profile, legacy: Profile)
    ensures forall n | n in legacy :: Get(g + legacy, n) == legacy[n]
  {
  }

  lemma SectionsStay(g: Profile, legacy: Profile)
    requires legacy.Keys == LEGACY_KEYS
    ensures forall n
        | n in {Identity, Versioning, Terminology, PlannerObjectSchemas, FrameworkBindings, ReportBindings} ::
              Get(g + legacy, n) == Get(g, n)
    ensures TemplateDefaults in legacy
  {
  }

  lemma EitherIsOrHash(v: Json)
    ensures Either(v, Obj(map[])) == OrHash(v)
  {
  }

  lemma KeysMade(h: Host, g: Profile)
    requires LegacyKeys(h, g).Ok?
    ensures
      var k := LegacySections(h, OrHash(Get(g, Identity)), OrHash(Get(g, Versioning)), OrHash(Get(g, Terminology)),
                              OrHash(Get(g, PlannerObjectSchemas)), Get(g, FrameworkBindings), Get(g, ReportBindings));
      var defaults := Dig2(OrHash(Get(g, PlannerObjectSchemas)), "template", "defaults");
      && k.Ok? && defaults.Ok?
      && LegacyKeys(h, g)
         == Ok(k.value[TemplateDefaults :=
                 if Truthy(defaults.value) then defaults.value else OrHash(Get(g, TemplateDefaults))])
  {
    EitherIsOrHash(Get(g, Identity));
    EitherIsOrHash(Get(g, Versioning));
    EitherIsOrHash(Get(g, Terminology));
    EitherIsOrHash(Get(g, PlannerObjectSchemas));
    EitherIsOrHash(Get(g, TemplateDefaults));
    hide LegacySections, Dig2, OrHash;
  }

  /** The keys a v1 reader expects, of any profile: names and place, labels, the options of the two fields, framework
      and template defaults. */
  lemma CompatibilityKeys(h: Host, p: Profile) returns (fields: Json, frameworks: Json)
    requires Normalize(h, p).Ok?
    ensures
      var q := Normalize(h, p).value;
      var identity, terms := OrHash(Get(q, Identity)), OrHash(Get(q, Terminology));
      && Index(identity, "key") == Ok(Get(q, Key)) && Index(identity, "label") == Ok(Get(q, Label))
      && Index(identity, "description") == Ok(Get(q, Description))
      && Index(identity, "jurisdiction") == Ok(Get(q, Jurisdiction))
      && Index(OrHash(Get(q, Versioning)), "version") == Ok(Get(q, Version))
      && Get(q, PlannerTaxonomy).Obj?
      && Get(q, PlannerTaxonomy).fields.Keys == {"subject_label", "grade_label", "unit_label"}
      && LabelOr(terms, "subject_label", "Subject") == Ok(Get(q, PlannerTaxonomy).fields["subject_label"])
      && LabelOr(terms, "grade_label", "Grade Level") == Ok(Get(q, PlannerTaxonomy).fields["grade_label"])
      && LabelOr(terms, "unit_label", "Unit") == Ok(Get(q, PlannerTaxonomy).fields["unit_label"])
    ensures
      var q := Normalize(h, p).value;
      && Dig2(OrHash(Get(q, PlannerObjectSchemas)), "unit_plan", "fields") == Ok(fields)
      && FieldOptions(h, ToArray(h, fields), "subject", Get(q, SubjectOptions))
      && FieldOptions(h, ToArray(h, fields), "grade_or_stage", Get(q, GradeOptions))
      && FrameworksFrom(OrHash(Get(q, PlannerObjectSchemas)), Get(q, FrameworkBindings), Get(q, ReportBindings),
          frameworks)
      && Get(q, FrameworkDefaults) == Arr(Strings(h, ToArray(h, frameworks)))
      && Reshape(h, p).Ok?
      && TemplateDefaultsFrom(Get(q, PlannerObjectSchemas), Get(Reshape(h, p).value, TemplateDefaults),
          Get(q, TemplateDefaults))
  {
    hide LegacySections, Reshape, Normalize, TemplateDefaultsFrom, OrHash, Get, Index, LabelOr, Dig2, FieldOptions,
      FrameworksFrom, Strings, ToArray;
    var q := Normalize(h, p).value;
    var k := KeysOverlaid(h, p);
    var identity, versioning, terms :=
        OrHash(Get(q, Identity)), OrHash(Get(q, Versioning)), OrHash(Get(q, Terminology));
    var planner := OrHash(Get(q, PlannerObjectSchemas));
    NamesRead(h, identity, versioning, terms, planner, Get(q, FrameworkBindings), Get(q, ReportBindings));
    PlaceRead(h, identity, versioning, terms, planner, Get(q, FrameworkBindings), Get(q, ReportBindings));
    TaxonomyKeyRead(h, identity, versioning, terms, planner, Get(q, FrameworkBindings), Get(q, ReportBindings));
    fields :=
        OptionKeysRead(h, identity, versioning, terms, planner, Get(q, FrameworkBindings), Get(q, ReportBindings));
    frameworks :=
        FrameworkKeyRead(h, identity, versioning, terms, planner, Get(q, FrameworkBindings), Get(q, ReportBindings));
  }

  // ----- what becomes of a v1 profile

  lemma V1Reshaped(h: Host, p: Profile)
    requires V1Shape(p) && Normalize(h, p).Ok?
    ensures AdaptV1(h, p).Ok? && NormalizeV2(h, AdaptV1(h, p).value) == Reshape(h, p)
  {
    hide AdaptV1, NormalizeV2, LegacyKeys;
  }

  /** The sections that neither the lift nor the overlay writes. */
  lemma Apart()
    ensures LIFTED !! {Identity, Terminology, PlannerObjectSchemas, ProfileStatus, TemplateDefaults, SourceProfileType}
    ensures LEGACY_KEYS !! LIFTED + {Identity, Terminology, PlannerObjectSchemas, ProfileStatus, SourceProfileType}
    ensures {Versioning, FrameworkBindings, ReportBindings} <= LIFTED && TemplateDefaults in LEGACY_KEYS
  {
  }

  lemma V1Section(h: Host, p: Profile, name: Section)
    requires V1Shape(p) && Normalize(h, p).Ok? && name !in LEGACY_KEYS
    ensures
      var q := Normalize(h, p).value;
      && AdaptV1(h, p).Ok? && NormalizeV2(h, AdaptV1(h, p).value).Ok?
      && Get(q, name)
         == (if name == ProfileStatus then NormalizeStatus(h, Get(AdaptV1(h, p).value, ProfileStatus))
             else if name in LIFTED then Get(NormalizeV2(h, AdaptV1(h, p).value).value, name)
             else Get(AdaptV1(h, p).value, name))
  {
    V1Reshaped(h, p);
    Overlaid(h, p);
    V2Keeps(h, AdaptV1(h, p).value, name);
    V2Keeps(h, AdaptV1(h, p).value, ProfileStatus);
    Apart();
    hide AdaptV1, Normalize, NormalizeV2, Reshape, Get, NormalizeStatus, LIFTED, LEGACY_KEYS;
  }

  /** A v1 profile keeps its names, place and labels, under the keys it had. */
  lemma V1KeepsNames(h: Host, p: Profile)
    requires V1Shape(p) && Normalize(h, p).Ok?
    ensures
      var q := Normalize(h, p).value;
      && Get(q, Key) == Get(p, Key) && Get(q, Label) == Get(p, Label) && Get(q, Version) == Get(p, Version)
      && Get(q, Description) == Get(p, Description) && Get(q, Jurisdiction) == Get(p, Jurisdiction)
  {
    V1NameSections(h, p);
    var _, _ := CompatibilityKeys(h, p);
    NamesIndexed(Get(p, Key), Get(p, Label), Get(p, Description), Get(p, Jurisdiction));
    VersionIndexed(Get(Normalize(h, p).value, Versioning));
    hide *;
  }

  lemma V1NameSections(h: Host, p: Profile)
    requires V1Shape(p) && Normalize(h, p).Ok?
    ensures
      var q := Normalize(h, p).value;
      && Get(q, Identity) == Obj(map["key" := Get(p, Key), "label" := Get(p, Label),
           "description" := Get(p, Description), "jurisdiction" := Get(p, Jurisdiction)])
      && Get(q, Versioning).Obj? && Get(Get(q, Versioning).fields, "version") == Get(p, Version)
  {
    Apart();
    hide AdaptV1, Normalize, NormalizeV2, Reshape, LIFTED, LEGACY_KEYS;
    V1Section(h, p, Identity);
    V1Section(h, p, Versioning);
    V1Names(h, p);
    V2Versioning(h, AdaptV1(h, p).value);
  }

  lemma NamesIndexed(key: Json, name: Json, description: Json, place: Json)
    ensures
      var v := OrHash(Obj(map["key" := key, "label" := name, "description" := description, "jurisdiction" := place]));
      && Index(v, "key") == Ok(key) && Index(v, "label") == Ok(name)
      && Index(v, "description") == Ok(description) && Index(v, "jurisdiction") == Ok(place)
  {
  }

  lemma VersionIndexed(v: Json)
    requires v.Obj?
    ensures Index(OrHash(v), "version") == Ok(Get(v.fields, "version"))
  {
  }

  lemma V1KeepsLabels(h: Host, p: Profile)
    requires V1Shape(p) && Normalize(h, p).Ok?
    ensures
      var q := Normalize(h, p).value;
      && Get(q, PlannerTaxonomy) == Obj(map[
           "subject_label" := TaxonomyLabel(p, "subject_label", "Subject"),
           "grade_label" := TaxonomyLabel(p, "grade_label", "Grade Level"),
           "unit_label" := TaxonomyLabel(p, "unit_label", "Unit")])
      && Get(q, Terminology) == Get(q, PlannerTaxonomy)
      && Get(q, ProfileStatus)
         == NormalizeStatus(h, if Truthy(Get(p, ProfileStatus)) then Get(p, ProfileStatus) else Str("active"))
  {
    Apart();
    hide AdaptV1, Normalize, NormalizeV2, Reshape, LIFTED, LEGACY_KEYS, TaxonomyLabel, LabelOr, NormalizeStatus;
    V1Section(h, p, Terminology);
    V1Section(h, p, ProfileStatus);
    V1Terms(h, p);
    V1Status(h, p);
    var _, _ := CompatibilityKeys(h, p);
    var q := Normalize(h, p).value;
    LabelsKept(p, Get(q, Terminology), Get(q, PlannerTaxonomy));
  }

  /** Its own options, as strings, are the ones of the keys it had and of the two select fields of its unit; its
      framework defaults come as strings, each once, and its template defaults as they are. */
  lemma V1KeepsOptions(h: Host, p: Profile)
    requires V1Shape(p) && Normalize(h, p).Ok?
    ensures
      var q := Normalize(h, p).value;
      && Get(q, PlannerObjectSchemas) == V1Planner(h, p)
      && Get(q, SubjectOptions) == Listed(h, p, SubjectOptions) && Get(q, GradeOptions) == Listed(h, p, GradeOptions)
  {
    Apart();
    hide AdaptV1, Normalize, NormalizeV2, Reshape, LIFTED, LEGACY_KEYS, TaxonomyLabel, Listed;
    V1Section(h, p, PlannerObjectSchemas);
    V1Plans(h, p);
    var fields, _ := CompatibilityKeys(h, p);
    var q := Normalize(h, p).value;
    PlannedFields(h, p);
    ListedAgain(h, p, SubjectOptions);
    ListedAgain(h, p, GradeOptions);
    UnitOptions(h, p, Get(q, SubjectOptions), Get(q, GradeOptions));
  }

  lemma PlannedFields(h: Host, p: Profile)
    ensures Dig2(OrHash(V1Planner(h, p)), "unit_plan", "fields") == Ok(Arr(UnitFields(h, p)))
    ensures Dig2(OrHash(V1Planner(h, p)), "template", "tags") == Ok(Listed(h, p, FrameworkDefaults))
    ensures Dig2(OrHash(V1Planner(h, p)), "template", "defaults") == Ok(OrHash(Get(p, TemplateDefaults)))
  {
    hide UnitFields, Listed;
    assert Truthy(V1Planner(h, p));
  }

  lemma ListedAgain(h: Host, p: Profile, name: Section)
    ensures Strings(h, ToArray(h, Listed(h, p, name))) == Strings(h, ToArray(h, Get(p, name)))
  {
    StringsAreStrings(h, ToArray(h, Get(p, name)));
    StringsOfStrings(h, Strings(h, ToArray(h, Get(p, name))));
  }

  lemma UnitOptions(h: Host, p: Profile, subjects: Json, grades: Json)
    requires FieldOptions(h, UnitFields(h, p), "subject", subjects)
    requires FieldOptions(h, UnitFields(h, p), "grade_or_stage", grades)
    requires forall name | name == SubjectOptions || name == GradeOptions ::
               Strings(h, ToArray(h, Listed(h, p, name))) == Strings(h, ToArray(h, Get(p, name)))
    ensures subjects == Listed(h, p, SubjectOptions) && grades == Listed(h, p, GradeOptions)
  {
    FieldsById(h, p);
    hide UnitFields, Strings, ToArray, Index, Dig;
    var fields := UnitFields(h, p);
    assert forall j | 0 <= j < 1 :: Index(fields[j], "id") != Ok(Str("grade_or_stage"));
    assert Index(fields[0], "id") == Ok(Str("subject"));
  }

  lemma FieldsById(h: Host, p: Profile)
    ensures
      var fields := UnitFields(h, p);
      && Index(fields[0], "id") == Ok(Str("subject")) && Index(fields[1], "id") == Ok(Str("grade_or_stage"))
      && Dig(fields[0], "options") == Ok(Listed(h, p, SubjectOptions))
      && Dig(fields[1], "options") == Ok(Listed(h, p, GradeOptions))
  {
    hide Listed, TaxonomyLabel, ToS;
  }

  lemma LabelsKept(p: Profile, terms: Json, taxonomy: Json)
    requires terms == Obj(map["subject_label" := TaxonomyLabel(p, "subject_label", "Subject"),
      "grade_label" := TaxonomyLabel(p, "grade_label", "Grade Level"),
      "unit_label" := TaxonomyLabel(p, "unit_label", "Unit")])
    requires taxonomy.Obj? && taxonomy.fields.Keys == {"subject_label", "grade_label", "unit_label"}
    requires LabelOr(OrHash(terms), "subject_label", "Subject") == Ok(taxonomy.fields["subject_label"])
    requires LabelOr(OrHash(terms), "grade_label", "Grade Level") == Ok(taxonomy.fields["grade_label"])
    requires LabelOr(OrHash(terms), "unit_label", "Unit") == Ok(taxonomy.fields["unit_label"])
    ensures taxonomy == terms
  {
    assert forall name | name in terms.fields :: terms.fields[name] != Null && terms.fields[name] != Bool(false);
    assert taxonomy.fields == terms.fields;
  }

  lemma V1Bound(h: Host, p: Profile)
    requires V1Shape(p) && Normalize(h, p).Ok?
    ensures
      var bindings := Get(Normalize(h, p).value, FrameworkBindings);
      && bindings.Obj? && "defaults" in bindings.fields
      && bindings.fields["defaults"] == Arr(Uniq(Strings(h, ToArray(h, Get(p, FrameworkDefaults)))))
  {
    Apart();
    hide AdaptV1, Normalize, NormalizeV2, Reshape, LIFTED, LEGACY_KEYS, Listed, Strings, ToArray, Uniq, Dig, Dig2,
      SynthesizeFrameworkBindings, DefaultsFrom, V1Planner, OrHash, Get;
    V1Section(h, p, FrameworkBindings);
    var f := AdaptV1(h, p).value;
    V2Keeps(h, f, FrameworkBindings);
    var given, _ := FrameworksBound(h, f);
    V1Frameworks(h, p);
    V1Absent(h, p);
    CoverageGiven(f, Listed(h, p, FrameworkDefaults), given);
    ListedAgain(h, p, FrameworkDefaults);
  }

  /** Its framework defaults come as strings, each once. */
  lemma V1KeepsFrameworks(h: Host, p: Profile)
    requires V1Shape(p) && Normalize(h, p).Ok?
    ensures
      var q := Normalize(h, p).value;
      && Get(q, FrameworkDefaults) == Arr(Uniq(Strings(h, ToArray(h, Get(p, FrameworkDefaults)))))
      && Get(q, FrameworkBindings).Obj? && "defaults" in Get(q, FrameworkBindings).fields
      && Get(q, FrameworkBindings).fields["defaults"] == Get(q, FrameworkDefaults)
  {
    hide Normalize, Reshape, Strings, ToArray, Uniq, Index, LabelOr, FieldOptions, FrameworksFrom,
      TemplateDefaultsFrom, OrHash, Dig2, Get;
    V1Bound(h, p);
    OnceStrings(h, ToArray(h, Get(p, FrameworkDefaults)));
    var q := Normalize(h, p).value;
    var _, source := CompatibilityKeys(h, p);
    OwnDefaults(Get(q, PlannerObjectSchemas), Get(q, FrameworkBindings), Get(q, ReportBindings), source);
  }

  /** Its template defaults come as they are. */
  lemma V1KeepsTemplates(h: Host, p: Profile)
    requires V1Shape(p) && Normalize(h, p).Ok?
    ensures Get(Normalize(h, p).value, TemplateDefaults) == OrHash(Get(p, TemplateDefaults))
  {
    hide AdaptV1, Normalize, Reshape, Strings, ToArray, Index, LabelOr, FieldOptions, FrameworksFrom,
      TemplateDefaultsFrom, V1Planner, OrHash, Dig2, Get;
    V1Planned(h, p);
    PlannedFields(h, p);
    var q := Normalize(h, p).value;
    var _, _ := CompatibilityKeys(h, p);
    TemplatesPlanned(h, p, Get(Reshape(h, p).value, TemplateDefaults), Get(q, TemplateDefaults));
  }

  lemma V1Planned(h: Host, p: Profile)
    requires V1Shape(p) && Normalize(h, p).Ok?
    ensures AdaptV1(h, p).Ok? && Get(Normalize(h, p).value, PlannerObjectSchemas) == V1Planner(h, p)
  {
    Apart();
    hide AdaptV1, Normalize, NormalizeV2, Reshape, LIFTED, LEGACY_KEYS;
    V1Section(h, p, PlannerObjectSchemas);
    V1Plans(h, p);
  }

  lemma CoverageGiven(f: Profile, given: Json, source: Json)
    requires FrameworkBindings !in f && FrameworkDefaults !in f && DefaultsFrom(f, source)
    requires Get(f, ReportBindings) == Obj(map["standards_coverage" := Obj(map["default_frameworks" := given])])
    ensures source == given
  {
  }

  lemma OwnDefaults(planner: Json, bindings: Json, reports: Json, source: Json)
    requires bindings.Obj? && "defaults" in bindings.fields && Truthy(bindings.fields["defaults"])
    requires FrameworksFrom(OrHash(planner), bindings, reports, source)
    ensures source == bindings.fields["defaults"]
  {
    hide OrHash;
  }

  lemma OnceStrings(h: Host, vs: seq<Json>)
    ensures
      var once := Uniq(Strings(h, vs));
      Strings(h, ToArray(h, Arr(once))) == once
  {
    StringsAreStrings(h, vs);
    StringsOfStrings(h, Uniq(Strings(h, vs)));
  }

  lemma TemplatesPlanned(h: Host, p: Profile, own: Json, defaults: Json)
    requires TemplateDefaultsFrom(V1Planner(h, p), own, defaults)
    requires Dig2(OrHash(V1Planner(h, p)), "template", "defaults") == Ok(OrHash(Get(p, TemplateDefaults)))
    ensures defaults == OrHash(Get(p, TemplateDefaults))
  {
    hide V1Planner, Dig2;
  }
}
