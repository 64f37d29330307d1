/** The importer, and the round trip through an exported tree. */
module QtiImport {
  import opened Wrappers
  import opened Text
  import opened Qti

  // ----- the importer

  predicate HasLabel(field: Node, name: string) {
    var labels := Children(field, FieldLabel);
    exists i | 0 <= i < |labels| :: TextOf(labels[i]) == name
  }

  function Labelled(fields: seq<Node>, name: string): seq<Node> {
    if fields == [] then [] else
    (if HasLabel(fields[0], name) then [fields[0]] else []) + Labelled(fields[1..], name)
  }

  /** `.//qtimetadatafield[fieldlabel=name]/fieldentry`, first match. */
  function FieldEntryOf(item: Node, name: string): Option<string> {
    FirstText(ChildrenOfAll(Labelled(Descendants(item, QtiMetadataField), name), FieldEntry))
  }

  function IdentOf(label_: Node): Option<string> {
    if label_.Elem? && Ident in label_.attrs then Some(label_.attrs[Ident]) else None
  }

  function Idents(labels: seq<Node>): seq<Option<string>> {
    seq(|labels|, i requires 0 <= i < |labels| => IdentOf(labels[i]))
  }

  function DetectType(item: Node): Option<string> {
    var declared := FieldEntryOf(item, TYPE_FIELD);
    if declared.Some? && declared.value in VALID_TYPES then declared
    else if Descendants(item, RenderChoice) != [] then
      if multiset(Idents(Descendants(item, ResponseLabel))) == multiset{Some("false"), Some("true")}
          then Some(TRUE_FALSE)
      else Some(MULTIPLE_CHOICE)
    else if Descendants(item, RenderFib) != [] then Some(SHORT_ANSWER)
    else None
  }

  datatype Imported = Imported(
    qtype: string, prompt: string, points: Decimal, choices: Option<seq<Choice>>, answer: Answer)

  datatype Outcome = Created(question: Imported) | Unrecognized(title: string) | Invalid(title: string)

  function ImportedChoice(label_: Node): Choice {
    Choice(IdentOf(label_), OrEmpty(FirstText(Descendants(label_, MatText))))
  }

  function ImportedChoices(labels: seq<Node>): seq<Choice> {
    seq(|labels|, i requires 0 <= i < |labels| => ImportedChoice(labels[i]))
  }

  function Responses(item: Node): seq<string> { Texts(Below(item, RespCondition, VarEqual)) }

  function FirstOf(ss: seq<string>): Option<string> { if ss == [] then None else Some(ss[0]) }

  function Attributes(item: Node, qtype: string, prompt: string): Imported {
    var entry := FieldEntryOf(item, POINTS_FIELD);
    var points := if entry.Some? then ReadDecimal(entry.value) else Decimal(1, "0");
    var responses := Responses(item);
    if qtype == MULTIPLE_CHOICE then
      Imported(qtype, prompt, points, Some(ImportedChoices(Descendants(item, ResponseLabel))),
          KeyAnswer(FirstOf(responses)))
    else if qtype == TRUE_FALSE then
      Imported(qtype, prompt, points, Some([Choice(Some("true"), "True"), Choice(Some("false"), "False")]),
        ValueAnswer(FirstOf(responses) == Some("true")))
    else if qtype == SHORT_ANSWER then Imported(qtype, prompt, points, None, AcceptableAnswer(responses))
    else Imported(qtype, prompt, points, None, NoAnswer)
  }

  function TitleOf(item: Node): string {
    if item.Elem? && Title in item.attrs then item.attrs[Title] else "Imported Question"
  }

  /** The first `.//presentation/material/mattext`. */
  function PromptOf(item: Node): string {
    var found := FirstText(ChildrenOfAll(ChildrenOfAll(Descendants(item, Presentation), Material), MatText));
    if found.Some? then found.value else TitleOf(item)
  }

  function ImportItem(item: Node): Outcome {
    var qtype := DetectType(item);
    if qtype.None? then Unrecognized(TitleOf(item))
    else
      var q := Attributes(item, qtype.value, PromptOf(item));
      if Blank(q.prompt) || !Positive(q.points) then Invalid(TitleOf(item)) else Created(q)
  }

  /** The rows an import creates, in order, and the errors it lists. */
  datatype Report = Report(created: seq<Imported>, errors: seq<Outcome>)

  function ImportItems(items: seq<Node>): Report {
    if items == [] then Report([], []) else
    var before := ImportItems(items[..|items| - 1]);
    var last := ImportItem(items[|items| - 1]);
    if last.Created? then before.(created := before.created + [last.question])
    else before.(errors := before.errors + [last])
  }

  method ImportTree(root: Node) returns (report: Report)
    ensures report == ImportItems(Within([root], Item))
  {
    hide ImportItem, Within;
    var items := Within([root], Item);
    report := Report([], []);
    for i := 0 to |items|
      invariant report == ImportItems(items[..i])
    {
      assert items[..i + 1][..i] == items[..i];
      var outcome := ImportItem(items[i]);
      if outcome.Created? {
        report := report.(created := report.created + [outcome.question]);
      } else {
        report := report.(errors := report.errors + [outcome]);
      }
    }
    assert items[..|items|] == items;
  }

  // ----- queries on exported trees

  lemma {:induction false} WithinConcat(a: seq<Node>, b: seq<Node>, tag: Tag)
    ensures Within(a + b, tag) == Within(a, tag) + Within(b, tag)
  {
    if a == [] {
      assert a + b == b;
    } else {
      assert (a + b)[0] == a[0] && (a + b)[1..] == a[1..] + b;
      WithinConcat(a[1..], b, tag);
    }
  }

  lemma {:induction false} BelowConcat(a: seq<Node>, b: seq<Node>, outer: Tag, tag: Tag)
    ensures BelowIn(a + b, outer, tag) == BelowIn(a, outer, tag) + BelowIn(b, outer, tag)
  {
    if a == [] {
      assert a + b == b;
    } else {
      assert (a + b)[0] == a[0] && (a + b)[1..] == a[1..] + b;
      BelowConcat(a[1..], b, outer, tag);
    }
  }

  /** Where a tag does not occur nothing lies below it. */
  lemma {:induction false} NothingBelow(ns: seq<Node>, outer: Tag, tag: Tag)
    requires Within(ns, outer) == []
    ensures BelowIn(ns, outer, tag) == []
    decreases ns
  {
    if ns != [] {
      assert |Descendants(ns[0], outer)| + |Within(ns[1..], outer)| <= |Within(ns, outer)|;
      NothingBelow(ns[1..], outer, tag);
      if ns[0].Elem? {
        NothingBelow(ns[0].kids, outer, tag);
      }
    }
  }

  /** A node standing alone. */
  lemma One(n: Node, tag: Tag, outer: Tag)
    ensures Within([n], tag) == (if Is(n, tag) then [n] else []) + Descendants(n, tag)
    ensures BelowIn([n], outer, tag) == if Is(n, outer) then Descendants(n, tag) else Below(n, outer, tag)
  {
    assert [n][1..] == [];
    assert Within([n][1..], tag) == [] && BelowIn([n][1..], outer, tag) == [];
  }

  lemma Two(a: Node, b: Node, tag: Tag, outer: Tag)
    ensures Within([a, b], tag) == Within([a], tag) + Within([b], tag)
    ensures BelowIn([a, b], outer, tag) == BelowIn([a], outer, tag) + BelowIn([b], outer, tag)
  {
    assert [a] + [b] == [a, b];
    WithinConcat([a], [b], tag);
    BelowConcat([a], [b], outer, tag);
  }

  lemma LeafFacts(tag: Tag, attrs: Attrs, text: string, t: Tag)
    ensures TextOf(Leaf(tag, attrs, text)) == text
    ensures Within([Leaf(tag, attrs, text)], t) == if t == tag then [Leaf(tag, attrs, text)] else []
    ensures Descendants(Leaf(tag, attrs, text), t) == []
  {
    var n := TextNode(text);
    assert [n][1..] == [];
    assert TextIn([n]) == TextOf(n) + TextIn([n][1..]) == text;
    One(n, t, t);
    One(Leaf(tag, attrs, text), t, t);
  }

  lemma MaterialFacts(attrs: Attrs, text: string, t: Tag)
    ensures
      var m, leaf := MaterialNode(attrs, text), Leaf(MatText, attrs, text);
      && Within([m], t) == (if t == Material then [m] else if t == MatText then [leaf] else [])
      && Descendants(m, MatText) == Children(m, MatText) == [leaf]
  {
    var m, leaf := MaterialNode(attrs, text), Leaf(MatText, attrs, text);
    LeafFacts(MatText, attrs, text, t);
    LeafFacts(MatText, attrs, text, MatText);
    One(m, t, t);
    assert [leaf][1..] == [];
    assert Filter([leaf], MatText) == [leaf] + Filter([leaf][1..], MatText);
  }

  /** The part of an exported item a tag belongs to. */
  datatype Part = MetadataPart | PresentationPart | InteractionPart | ProcessingPart | NoPart

  function PartOf(t: Tag): Part {
    match t
    case ItemMetadata | QtiMetadata | QtiMetadataField | FieldLabel | FieldEntry => MetadataPart
    case Presentation => PresentationPart
    case ResponseLid | ResponseStr | RenderChoice | RenderFib | ResponseLabel | Material | MatText => InteractionPart
    case ResProcessing | Outcomes | DecVar | RespCondition | ConditionVar | VarEqual | SetVar => ProcessingPart
    case _ => NoPart
  }

  // ----- metadata

  lemma FieldFacts(name: string, entry: string)
    ensures
      var f := FieldNode(name, entry);
      && (forall n :: HasLabel(f, n) <==> n == name)
      && Children(f, FieldEntry) == [Leaf(FieldEntry, map[], entry)]
  {
    var a, b := Leaf(FieldLabel, map[], name), Leaf(FieldEntry, map[], entry);
    LeafFacts(FieldLabel, map[], name, FieldLabel);
    LeafFacts(FieldEntry, map[], entry, FieldLabel);
    assert [a, b][1..] == [b] && [b][1..] == [];
    assert Filter([b], FieldLabel) == [] + Filter([b][1..], FieldLabel) == [];
    assert Filter([a, b], FieldLabel) == [a] + Filter([b], FieldLabel) == [a];
    assert Filter([b], FieldEntry) == [b] + Filter([b][1..], FieldEntry) == [b];
    assert Filter([a, b], FieldEntry) == [] + Filter([b], FieldEntry) == [b];
  }

  lemma FieldQueried(name: string, entry: string, t: Tag)
    requires t == QtiMetadataField || PartOf(t) != MetadataPart
    ensures Within([FieldNode(name, entry)], t) == if t == QtiMetadataField then [FieldNode(name, entry)] else []
  {
    hide Leaf, Within;
    var a, b := Leaf(FieldLabel, map[], name), Leaf(FieldEntry, map[], entry);
    LeafFacts(FieldLabel, map[], name, t);
    LeafFacts(FieldEntry, map[], entry, t);
    Two(a, b, t, t);
    One(FieldNode(name, entry), t, t);
  }

  lemma MetadataQueried(q: Question, t: Tag)
    requires t == QtiMetadataField || PartOf(t) != MetadataPart
    ensures
      Within([MetadataNode(q)], t)
      == if t == QtiMetadataField then
           [FieldNode(TYPE_FIELD, q.qtype), FieldNode(POINTS_FIELD, ShowDecimal(q.points))]
         else []
  {
    hide FieldNode, ShowDecimal, Within, TYPE_FIELD, POINTS_FIELD;
    var a, b := FieldNode(TYPE_FIELD, q.qtype), FieldNode(POINTS_FIELD, ShowDecimal(q.points));
    FieldQueried(TYPE_FIELD, q.qtype, t);
    FieldQueried(POINTS_FIELD, ShowDecimal(q.points), t);
    Two(a, b, t, t);
    One(Elem(QtiMetadata, map[], [a, b]), t, t);
    One(MetadataNode(q), t, t);
  }

  // ----- presentation

  lemma TypesDiffer()
    ensures MULTIPLE_CHOICE != TRUE_FALSE && MULTIPLE_CHOICE != SHORT_ANSWER && TRUE_FALSE != SHORT_ANSWER
  {
    assert MULTIPLE_CHOICE[0] == 'm' && TRUE_FALSE[0] == 't' && SHORT_ANSWER[0] == 's';
  }

  predicate LabelFor(t: Tag) { t == ResponseLabel || PartOf(t) != InteractionPart }

  /** How a response label answers the queries of an import. */
  predicate Labels(n: Node, t: Tag) { Within([n], t) == if t == ResponseLabel then [n] else [] }

  lemma {:induction false} LabelsQueried(labels: seq<Node>, t: Tag)
    requires forall i | 0 <= i < |labels| :: Labels(labels[i], t)
    ensures Within(labels, t) == if t == ResponseLabel then labels else []
  {
    if labels == [] {
      NoNodes(t);
    } else {
      assert Labels(labels[0], t);
      hide Within;
      var rest := labels[1..];
      assert forall i | 0 <= i < |rest| :: rest[i] == labels[i + 1];
      LabelsQueried(rest, t);
      assert labels == [labels[0]] + rest;
      WithinConcat([labels[0]], rest, t);
    }
  }

  lemma LabelFacts(ident: string, attrs: Attrs, text: string, t: Tag)
    requires LabelFor(t)
    ensures
      var n := Elem(ResponseLabel, map[Ident := ident], [MaterialNode(attrs, text)]);
      Labels(n, t) && ImportedChoice(n) == Choice(Some(ident), text)
  {
    hide MaterialNode, Leaf;
    var m := MaterialNode(attrs, text);
    MaterialFacts(attrs, text, t);
    MaterialFacts(attrs, text, MatText);
    LeafFacts(MatText, attrs, text, MatText);
    One(Elem(ResponseLabel, map[Ident := ident], [m]), t, t);
  }

  /** The response labels of an interaction. */
  function LabelsOf(q: Question): seq<Node> {
    if q.qtype == MULTIPLE_CHOICE then ChoiceLabels(ChoicesOf(q))
    else if q.qtype == TRUE_FALSE then [BooleanLabel("true", "True"), BooleanLabel("false", "False")]
    else if q.qtype == SHORT_ANSWER || q.qtype == FILL_IN_BLANK then [Elem(ResponseLabel, map[Ident := "answer1"], [])]
    else []
  }

  lemma LabelsListed(q: Question, t: Tag)
    requires LabelFor(t)
    ensures forall i | 0 <= i < |LabelsOf(q)| :: Labels(LabelsOf(q)[i], t)
  {
    hide MULTIPLE_CHOICE, TRUE_FALSE, SHORT_ANSWER, FILL_IN_BLANK, MaterialNode, Labels;
    var labels := LabelsOf(q);
    forall i | 0 <= i < |labels| ensures Labels(labels[i], t) {
      if q.qtype == MULTIPLE_CHOICE {
        LabelFacts(OrEmpty(ChoicesOf(q)[i].key), PLAIN_TEXT, ChoicesOf(q)[i].text, t);
      } else if q.qtype == TRUE_FALSE {
        LabelFacts("true", map[], "True", t);
        LabelFacts("false", map[], "False", t);
      } else {
        EmptyLabel(map[Ident := "answer1"], t);
      }
    }
  }

  lemma EmptyLabel(attrs: Attrs, t: Tag)
    ensures Labels(Elem(ResponseLabel, attrs, []), t)
  {
    One(Elem(ResponseLabel, attrs, []), t, t);
  }

  lemma NestedLabels(outer: Tag, attrs: Attrs, inner: Tag, labels: seq<Node>, t: Tag)
    requires outer != t && inner != t
    ensures Within([Elem(outer, attrs, [Elem(inner, map[], labels)])], t) == Within(labels, t)
  {
    hide Within;
    One(Elem(inner, map[], labels), t, t);
    One(Elem(outer, attrs, [Elem(inner, map[], labels)]), t, t);
  }

  lemma InteractionQueried(q: Question, t: Tag)
    requires LabelFor(t)
    ensures Within(Interaction(q), t) == if t == ResponseLabel then LabelsOf(q) else []
  {
    hide Within, Interaction, LabelsOf, Labels, RESPONSE;
    LabelsListed(q, t);
    LabelsQueried(LabelsOf(q), t);
    NestedLabels(ResponseLid, RESPONSE, RenderChoice, LabelsOf(q), t);
    NestedLabels(ResponseStr, RESPONSE, RenderFib, LabelsOf(q), t);
    NoNodes(t);
    InteractionShape(q);
  }

  lemma InteractionShape(q: Question)
    ensures
      || Interaction(q) == [Elem(ResponseLid, RESPONSE, [Elem(RenderChoice, map[], LabelsOf(q))])]
      || Interaction(q) == [Elem(ResponseStr, RESPONSE, [Elem(RenderFib, map[], LabelsOf(q))])]
      || (Interaction(q) == [] && LabelsOf(q) == [])
  {
    hide ChoiceLabels, BooleanLabel, RESPONSE, MULTIPLE_CHOICE, TRUE_FALSE, SHORT_ANSWER, FILL_IN_BLANK;
  }

  lemma NoNodes(t: Tag)
    ensures Within([], t) == []
  {
  }

  lemma PresentationQueried(q: Question, t: Tag)
    requires LabelFor(t)
    ensures Within([PresentationNode(q)], t)
         == if t == Presentation then [PresentationNode(q)] else if t == ResponseLabel then LabelsOf(q) else []
  {
    hide Interaction, LabelsOf, Within, MaterialNode;
    var m := MaterialNode(PLAIN_TEXT, q.prompt);
    MaterialFacts(PLAIN_TEXT, q.prompt, t);
    InteractionQueried(q, t);
    WithinConcat([m], Interaction(q), t);
    One(PresentationNode(q), t, t);
  }

  lemma PromptFirst(q: Question)
    ensures
      FirstText(ChildrenOfAll(ChildrenOfAll([PresentationNode(q)], Material), MatText)) == Some(q.prompt)
  {
    hide Interaction, Leaf;
    var m, rest := MaterialNode(PLAIN_TEXT, q.prompt), Interaction(q);
    var p := PresentationNode(q);
    MaterialFacts(PLAIN_TEXT, q.prompt, MatText);
    LeafFacts(MatText, PLAIN_TEXT, q.prompt, MatText);
    assert [p][1..] == [] && p.kids == [m] + rest;
    assert p.kids[0] == m && p.kids[1..] == rest;
    var materials := ChildrenOfAll([p], Material);
    assert materials == Children(p, Material) + ChildrenOfAll([p][1..], Material);
    assert Filter(p.kids, Material) == [m] + Filter(rest, Material);
    assert materials[0] == m;
  }

  // ----- response processing

  lemma {:induction false} VarEqualsQueried(texts: seq<string>, t: Tag)
    ensures Within(VarEqualNodes(texts), t) == if t == VarEqual then VarEqualNodes(texts) else []
  {
    if texts == [] {
      NoNodes(t);
    } else {
      hide Within;
      var ns := VarEqualNodes(texts);
      LeafFacts(VarEqual, map[RespIdent := "response1"], texts[0], t);
      VarEqualsQueried(texts[1..], t);
      assert ns[1..] == VarEqualNodes(texts[1..]);
      assert ns == [ns[0]] + ns[1..];
      WithinConcat([ns[0]], ns[1..], t);
    }
  }

  lemma VarEqualTexts(texts: seq<string>)
    ensures Texts(VarEqualNodes(texts)) == texts
  {
    forall i | 0 <= i < |texts| ensures TextOf(VarEqualNodes(texts)[i]) == texts[i] {
      LeafFacts(VarEqual, map[RespIdent := "response1"], texts[i], VarEqual);
    }
  }

  lemma ConditionQueried(q: Question, t: Tag)
    requires t == VarEqual || PartOf(t) != ProcessingPart
    ensures Descendants(ConditionNode(q), t) == if t == VarEqual then VarEqualNodes(AnswerTexts(q)) else []
    ensures Is(ConditionNode(q), RespCondition)
  {
    hide VarEqualNodes, AnswerTexts, ShowDecimal, SET_SCORE, Within, Leaf;
    var c := Elem(ConditionVar, map[], VarEqualNodes(AnswerTexts(q)));
    var s := Leaf(SetVar, SET_SCORE, ShowDecimal(q.points));
    VarEqualsQueried(AnswerTexts(q), t);
    LeafFacts(SetVar, SET_SCORE, ShowDecimal(q.points), t);
    One(c, t, t);
    Two(c, s, t, t);
  }

  lemma OutcomesQueried(q: Question, t: Tag)
    requires t == RespCondition || PartOf(t) != ProcessingPart
    ensures Within([Elem(Outcomes, map[], [Elem(DecVar, DecVarAttrs(q), [])])], t) == []
  {
    hide DecVarAttrs;
    One(Elem(DecVar, DecVarAttrs(q), []), t, t);
    One(Elem(Outcomes, map[], [Elem(DecVar, DecVarAttrs(q), [])]), t, t);
  }

  lemma ProcessingQueried(q: Question, t: Tag)
    requires PartOf(t) != ProcessingPart
    ensures Within(Processing(q), t) == []
  {
    if q.answer != NoAnswer {
      var o, c := Elem(Outcomes, map[], [Elem(DecVar, DecVarAttrs(q), [])]), ConditionNode(q);
      OutcomesQueried(q, t);
      ConditionQueried(q, t);
      hide ConditionNode, DecVarAttrs, Within;
      One(c, t, t);
      Two(o, c, t, t);
      One(Elem(ResProcessing, map[], [o, c]), t, t);
    }
  }

  lemma ProcessingResponses(q: Question)
    ensures BelowIn(Processing(q), RespCondition, VarEqual)
         == if q.answer == NoAnswer then [] else VarEqualNodes(AnswerTexts(q))
  {
    if q.answer != NoAnswer {
      var o, c := Elem(Outcomes, map[], [Elem(DecVar, DecVarAttrs(q), [])]), ConditionNode(q);
      OutcomesQueried(q, RespCondition);
      ConditionQueried(q, VarEqual);
      hide ConditionNode, DecVarAttrs, VarEqualNodes, AnswerTexts, BelowIn, Within;
      NothingBelow([o], RespCondition, VarEqual);
      One(c, VarEqual, RespCondition);
      Two(o, c, VarEqual, RespCondition);
      One(Elem(ResProcessing, map[], [o, c]), VarEqual, RespCondition);
    }
  }

  // ----- items

  lemma ItemSplits(q: Question, tag: Tag, outer: Tag)
    ensures Descendants(ItemNode(q), tag)
         == Within([MetadataNode(q)], tag) + Within([PresentationNode(q)], tag) + Within(Processing(q), tag)
    ensures Below(ItemNode(q), outer, tag)
         == BelowIn([MetadataNode(q)], outer, tag) + BelowIn([PresentationNode(q)], outer, tag)
            + BelowIn(Processing(q), outer, tag)
  {
    hide MetadataNode, PresentationNode, Processing, ItemAttrs, Within, BelowIn;
    Two(MetadataNode(q), PresentationNode(q), tag, outer);
    WithinConcat([MetadataNode(q), PresentationNode(q)], Processing(q), tag);
    BelowConcat([MetadataNode(q), PresentationNode(q)], Processing(q), outer, tag);
  }

  /** What the queries of an import find in an exported item. */
  lemma ItemQueried(q: Question, t: Tag)
    requires t in {QtiMetadataField, Presentation, ResponseLabel, Item}
    ensures Descendants(ItemNode(q), t)
         == (match t
             case QtiMetadataField => [FieldNode(TYPE_FIELD, q.qtype), FieldNode(POINTS_FIELD, ShowDecimal(q.points))]
             case Presentation => [PresentationNode(q)]
             case ResponseLabel => LabelsOf(q)
             case _ => [])
  {
    hide MetadataNode, PresentationNode, Processing, ItemNode, Within, LabelsOf, FieldNode, ShowDecimal, TYPE_FIELD,
      POINTS_FIELD;
    ItemSplits(q, t, t);
    MetadataQueried(q, t);
    PresentationQueried(q, t);
    ProcessingQueried(q, t);
  }

  lemma ResponsesRead(q: Question)
    ensures Responses(ItemNode(q)) == if q.answer == NoAnswer then [] else AnswerTexts(q)
  {
    hide MetadataNode, PresentationNode, Processing, ItemNode, BelowIn, Within, VarEqualNodes, AnswerTexts;
    ItemSplits(q, VarEqual, RespCondition);
    MetadataQueried(q, RespCondition);
    PresentationQueried(q, RespCondition);
    NothingBelow([MetadataNode(q)], RespCondition, VarEqual);
    NothingBelow([PresentationNode(q)], RespCondition, VarEqual);
    ProcessingResponses(q);
    VarEqualTexts(AnswerTexts(q));
  }

  lemma EntrySelected(a: Node, b: Node, name: string)
    ensures HasLabel(a, name) && !HasLabel(b, name) && Children(a, FieldEntry) != [] ==>
              FirstText(ChildrenOfAll(Labelled([a, b], name), FieldEntry)) == Some(TextOf(Children(a, FieldEntry)[0]))
    ensures HasLabel(b, name) && !HasLabel(a, name) && Children(b, FieldEntry) != [] ==>
              FirstText(ChildrenOfAll(Labelled([a, b], name), FieldEntry)) == Some(TextOf(Children(b, FieldEntry)[0]))
  {
    hide HasLabel, Children, TextOf;
    assert [a, b][1..] == [b] && [b][1..] == [] && [a][1..] == [];
    assert Labelled([b], name) == (if HasLabel(b, name) then [b] else []) + Labelled([b][1..], name);
    assert Labelled([a, b], name) == (if HasLabel(a, name) then [a] else []) + Labelled([b], name);
    assert ChildrenOfAll([a], FieldEntry) == Children(a, FieldEntry) + ChildrenOfAll([a][1..], FieldEntry);
    assert ChildrenOfAll([b], FieldEntry) == Children(b, FieldEntry) + ChildrenOfAll([b][1..], FieldEntry);
  }

  lemma FieldNamesDiffer()
    ensures TYPE_FIELD != POINTS_FIELD
  {
    assert TYPE_FIELD[0] != POINTS_FIELD[0];
  }

  lemma MetadataRead(q: Question)
    ensures FieldEntryOf(ItemNode(q), TYPE_FIELD) == Some(q.qtype)
    ensures FieldEntryOf(ItemNode(q), POINTS_FIELD) == Some(ShowDecimal(q.points))
  {
    hide FieldNode, ItemNode, ShowDecimal, HasLabel, Children, Leaf, TYPE_FIELD, POINTS_FIELD, Descendants, Labelled,
      ChildrenOfAll, TextOf, FirstText;
    var a, b := FieldNode(TYPE_FIELD, q.qtype), FieldNode(POINTS_FIELD, ShowDecimal(q.points));
    ItemQueried(q, QtiMetadataField);
    FieldFacts(TYPE_FIELD, q.qtype);
    FieldFacts(POINTS_FIELD, ShowDecimal(q.points));
    LeafFacts(FieldEntry, map[], q.qtype, Item);
    LeafFacts(FieldEntry, map[], ShowDecimal(q.points), Item);
    FieldNamesDiffer();
    EntrySelected(a, b, TYPE_FIELD);
    EntrySelected(a, b, POINTS_FIELD);
  }

  // ----- the round trip

  /** The questions whose answer, and options where the type has them, an import rebuilds: the answer
      has the shape its type calls for, and every option of a multiple choice has a key. */
  predicate WellFormed(q: Question) {
    if q.qtype == MULTIPLE_CHOICE then
      && q.answer.KeyAnswer? && q.answer.key.Some?
      && q.choices.Some? && forall i | 0 <= i < |q.choices.value| :: q.choices.value[i].key.Some?
    else if q.qtype == TRUE_FALSE then q.answer.ValueAnswer?
    else if q.qtype == SHORT_ANSWER then q.answer.AcceptableAnswer?
    else true
  }

  predicate Rebuilt(q: Question, n: Imported) {
    q.answer == n.answer && (q.qtype == MULTIPLE_CHOICE ==> q.choices == n.choices)
  }

  lemma ImportedLabels(q: Question)
    requires q.qtype == MULTIPLE_CHOICE
    ensures
      var cs := ImportedChoices(LabelsOf(q));
      && |cs| == |ChoicesOf(q)|
      && forall i | 0 <= i < |cs| :: cs[i] == Choice(Some(OrEmpty(ChoicesOf(q)[i].key)), ChoicesOf(q)[i].text)
  {
    TypesDiffer();
    var cs := ChoicesOf(q);
    assert LabelsOf(q) == ChoiceLabels(cs);
    forall i | 0 <= i < |cs|
      ensures ImportedChoice(LabelsOf(q)[i]) == Choice(Some(OrEmpty(cs[i].key)), cs[i].text)
    {
      LabelFacts(OrEmpty(cs[i].key), PLAIN_TEXT, cs[i].text, ResponseLabel);
    }
    hide LabelsOf, ImportedChoice, ChoicesOf;
  }

  /** Every valid question comes back with its type, prompt and points. */
  lemma ItemRoundTrip(q: Question)
    requires Valid(q)
    ensures ImportItem(ItemNode(q)) == Created(Attributes(ItemNode(q), q.qtype, q.prompt))
    ensures
      var n := Attributes(ItemNode(q), q.qtype, q.prompt);
      n.qtype == q.qtype && n.prompt == q.prompt && n.points == q.points
  {
    hide ItemNode, Canonical, PresentationNode, ShowDecimal, ReadDecimal, FieldEntryOf, Blank, Positive, Responses,
      MULTIPLE_CHOICE, TRUE_FALSE, SHORT_ANSWER, VALID_TYPES, Descendants, ChildrenOfAll, LabelsOf, FirstText;
    ItemQueried(q, Presentation);
    MetadataRead(q);
    PromptFirst(q);
    ReadShownDecimal(q.points);
  }

  /** For the three answerable types, answer and options come back exactly when well formed. */
  lemma AnswerRoundTripIff(q: Question)
    requires Valid(q) && q.qtype in {MULTIPLE_CHOICE, TRUE_FALSE, SHORT_ANSWER}
    ensures ImportItem(ItemNode(q)).Created? && (Rebuilt(q, ImportItem(ItemNode(q)).question) <==> WellFormed(q))
  {
    ItemRoundTrip(q);
    ItemQueried(q, ResponseLabel);
    ResponsesRead(q);
    hide ItemNode, ImportItem, Valid, FieldEntryOf, Responses, LabelsOf, ImportedChoices;
    var n := Attributes(ItemNode(q), q.qtype, q.prompt);
    TypesDiffer();
    hide MULTIPLE_CHOICE, TRUE_FALSE, SHORT_ANSWER;
    if q.qtype == MULTIPLE_CHOICE {
      ImportedLabels(q);
      MultipleChoiceIff(q, n, ImportedChoices(LabelsOf(q)));
    } else if q.qtype == TRUE_FALSE {
      TrueFalseIff(q, n);
    }
  }

  lemma MultipleChoiceIff(q: Question, n: Imported, cs: seq<Choice>)
    requires q.qtype == MULTIPLE_CHOICE && n.choices == Some(cs)
    requires n.answer == KeyAnswer(FirstOf(if q.answer == NoAnswer then [] else AnswerTexts(q)))
    requires |cs| == |ChoicesOf(q)|
    requires forall i | 0 <= i < |cs| :: cs[i] == Choice(Some(OrEmpty(ChoicesOf(q)[i].key)), ChoicesOf(q)[i].text)
    ensures Rebuilt(q, n) <==> WellFormed(q)
  {
    if WellFormed(q) {
      assert cs == q.choices.value;
    }
    if Rebuilt(q, n) {
      assert forall i | 0 <= i < |cs| :: q.choices.value[i] == cs[i];
    }
  }

  lemma TrueFalseIff(q: Question, n: Imported)
    requires q.qtype == TRUE_FALSE
    requires n.answer == ValueAnswer(FirstOf(if q.answer == NoAnswer then [] else AnswerTexts(q)) == Some("true"))
    ensures Rebuilt(q, n) <==> WellFormed(q)
  {
    TypesDiffer();
    assert "true"[0] != "false"[0];
  }

  // ----- whole banks

  lemma {:induction false} ItemsFound(qs: seq<Question>)
    ensures Within(ItemNodes(qs), Item) == ItemNodes(qs)
  {
    if qs == [] {
      NoNodes(Item);
    } else {
      hide ItemNode, Within;
      var rest := ItemNodes(qs[1..]);
      ItemsFound(qs[1..]);
      assert ItemNodes(qs) == [ItemNode(qs[0])] + rest;
      WithinConcat([ItemNode(qs[0])], rest, Item);
      One(ItemNode(qs[0]), Item, Item);
      ItemQueried(qs[0], Item);
      ItemTag(qs[0]);
    }
  }

  lemma ItemTag(q: Question)
    ensures Is(ItemNode(q), Item)
  {
  }

  lemma TreeItems(bank: Bank)
    ensures Within([ExportedTree(bank)], Item) == ItemNodes(ActiveOnly(bank.questions))
  {
    var items := ItemNodes(ActiveOnly(bank.questions));
    ItemsFound(ActiveOnly(bank.questions));
    hide ItemNodes, ActiveOnly, Digits;
    var section := Elem(Section, map[Ident := "root-section"], items);
    var assessment := Elem(Assessment, map[Ident := "bank-" + Digits(bank.id), Title := bank.title], [section]);
    One(section, Item, Item);
    One(assessment, Item, Item);
    One(ExportedTree(bank), Item, Item);
  }

  lemma {:induction false} ItemsImported(qs: seq<Question>)
    requires forall i | 0 <= i < |qs| :: ImportItem(ItemNode(qs[i])).Created?
    ensures
      var report := ImportItems(ItemNodes(qs));
      && report.errors == [] && |report.created| == |qs|
      && forall i | 0 <= i < |qs| :: Created(report.created[i]) == ImportItem(ItemNode(qs[i]))
  {
    hide ItemNode, ImportItem;
    if qs != [] {
      var init := qs[..|qs| - 1];
      assert forall i | 0 <= i < |init| :: init[i] == qs[i];
      ItemsImported(init);
      assert ItemNodes(qs)[..|qs| - 1] == ItemNodes(init);
    }
  }

  lemma {:induction false} ActiveAreValid(qs: seq<Question>)
    requires forall i | 0 <= i < |qs| :: Valid(qs[i])
    ensures forall i | 0 <= i < |ActiveOnly(qs)| :: Valid(ActiveOnly(qs)[i])
  {
    hide Valid;
    if qs != [] {
      ActiveAreValid(qs[..|qs| - 1]);
    }
  }

  /** A question and the row created from it. */
  predicate Survives(q: Question, n: Imported) {
    && n.qtype == q.qtype && n.prompt == q.prompt && n.points == q.points
    && (q.qtype in {MULTIPLE_CHOICE, TRUE_FALSE, SHORT_ANSWER} ==> (Rebuilt(q, n) <==> WellFormed(q)))
  }

  lemma QuestionSurvives(q: Question)
    requires Valid(q)
    ensures ImportItem(ItemNode(q)).Created? && Survives(q, ImportItem(ItemNode(q)).question)
  {
    hide ImportItem, ItemNode, Rebuilt, WellFormed, Attributes;
    ItemRoundTrip(q);
    if q.qtype in {MULTIPLE_CHOICE, TRUE_FALSE, SHORT_ANSWER} {
      AnswerRoundTripIff(q);
    }
  }

  /** Importing the tree of any bank of valid questions creates the active questions in order, with no
      warning, each with its type, prompt and points, and each answerable one with its answer and
      multiple-choice options exactly when they are well formed. */
  lemma BankRoundTrip(bank: Bank)
    requires forall i | 0 <= i < |bank.questions| :: Valid(bank.questions[i])
    ensures
      var report := ImportItems(Within([ExportedTree(bank)], Item));
      var active := ActiveOnly(bank.questions);
      && report.errors == [] && |report.created| == |active|
      && forall i | 0 <= i < |active| :: Survives(active[i], report.created[i])
  {
    hide ExportedTree, ItemNodes, ActiveOnly, ImportItem, ItemNode, Valid, Survives, Within;
    TreeItems(bank);
    ActiveAreValid(bank.questions);
    var active := ActiveOnly(bank.questions);
    forall i | 0 <= i < |active|
      ensures ImportItem(ItemNode(active[i])).Created? && Survives(active[i], ImportItem(ItemNode(active[i])).question)
    {
      QuestionSurvives(active[i]);
    }
    ItemsImported(active);
    var report := ImportItems(ItemNodes(active));
    forall i | 0 <= i < |active| ensures Survives(active[i], report.created[i]) {
      assert Created(report.created[i]) == ImportItem(ItemNode(active[i]));
    }
  }
}
