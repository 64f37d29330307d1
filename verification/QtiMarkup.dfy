/** The markup a question becomes, and what the importer makes of markup from elsewhere. */
module QtiMarkup {
  import opened Wrappers
  import opened Text
  import opened Qti
  import opened QtiImport

  // ----- what is exported

  /** An element whose only child is a text. */
  function Txt(tag: Tag, attrs: Attrs, text: string): Node { Elem(tag, attrs, [TextNode(text)]) }

  function Option1(c: Choice): Node {
    Elem(ResponseLabel, map[Ident := if c.key.Some? then c.key.value else ""],
      [Elem(Material, map[], [Txt(MatText, map[TextType := "text/plain"], c.text)])])
  }

  function Labels(q: Question): seq<Node> {
    var cs := if q.choices.Some? then q.choices.value else [];
    seq(|cs|, i requires 0 <= i < |cs| => Option1(cs[i]))
  }

  lemma LabelWritten(c: Choice)
    ensures ChoiceLabel(c) == Option1(c)
  {
  }

  lemma LabelsWritten(q: Question)
    ensures ChoiceLabels(ChoicesOf(q)) == Labels(q)
  {
    forall c { LabelWritten(c); }
    hide ChoiceLabel, Option1;
    assert |ChoiceLabels(ChoicesOf(q))| == |Labels(q)|;
    assert forall i | 0 <= i < |ChoicesOf(q)| :: ChoiceLabels(ChoicesOf(q))[i] == Labels(q)[i];
  }

  /** The item of any question: its type and points as metadata, its prompt, the interaction of its type, and its
      correct responses unless it has no answer. */
  lemma ItemMarkup(q: Question)
    ensures
      var points := Digits(q.points.whole) + "." + q.points.fraction;
      var response := map[Ident := "response1", RCardinality := "Single"];
      var interaction :=
        if q.qtype == "multiple_choice" then
          [Elem(ResponseLid, response, [Elem(RenderChoice, map[], Labels(q))])]
        else if q.qtype == "true_false" then
          [Elem(ResponseLid, response, [Elem(RenderChoice, map[], [
             Elem(ResponseLabel, map[Ident := "true"], [Elem(Material, map[], [Txt(MatText, map[], "True")])]),
             Elem(ResponseLabel, map[Ident := "false"], [Elem(Material, map[], [Txt(MatText, map[], "False")])])])])]
        else if q.qtype == "short_answer" || q.qtype == "fill_in_blank" then
          [Elem(ResponseStr, response, [Elem(RenderFib, map[], [Elem(ResponseLabel, map[Ident := "answer1"], [])])])]
        else [];
      ItemNode(q)
      == Elem(Item, map[Ident := "question-" + Digits(q.id),
                        Title := if |q.prompt| <= 80 then q.prompt else q.prompt[..77] + "..."],
           [Elem(ItemMetadata, map[], [Elem(QtiMetadata, map[], [
              Elem(QtiMetadataField, map[],
                [Txt(FieldLabel, map[], "question_type"), Txt(FieldEntry, map[], q.qtype)]),
              Elem(QtiMetadataField, map[],
                [Txt(FieldLabel, map[], "points_possible"), Txt(FieldEntry, map[], points)])])]),
            Elem(Presentation, map[],
              [Elem(Material, map[], [Txt(MatText, map[TextType := "text/plain"], q.prompt)])] + interaction)]
           + Responses1(q, points))
  {
    LabelsWritten(q);
    ResponsesWritten(q);
    hide Labels, ChoiceLabels, ChoicesOf, Digits, Processing, Responses1;
  }

  /** The correct responses: one for each text, all worth the full points. */
  function Responses1(q: Question, points: string): seq<Node> {
    if q.answer == NoAnswer then [] else
    [Elem(ResProcessing, map[], [
      Elem(Outcomes, map[], [Elem(DecVar,
        map[MaxValue := points, MinValue := "0", VarName := "SCORE", VarType := "Decimal"], [])]),
      Elem(RespCondition, map[Continue := "No"], [
        Elem(ConditionVar, map[], Varequals(q)),
        Txt(SetVar, map[VarName := "SCORE", Action := "Set"], points)])])]
  }

  /** A key, a truth value or the acceptable texts. */
  function Varequals(q: Question): seq<Node> {
    var texts :=
      if q.qtype == "multiple_choice" then
        [if q.answer.KeyAnswer? && q.answer.key.Some? then q.answer.key.value else ""]
      else if q.qtype == "true_false" then
        [if q.answer.ValueAnswer? then (if q.answer.value then "true" else "false") else ""]
      else if q.qtype == "short_answer" && q.answer.AcceptableAnswer? then q.answer.texts else [];
    seq(|texts|, i requires 0 <= i < |texts| => Txt(VarEqual, map[RespIdent := "response1"], texts[i]))
  }

  lemma ResponsesWritten(q: Question)
    ensures Processing(q) == Responses1(q, Digits(q.points.whole) + "." + q.points.fraction)
  {
    assert ShowDecimal(q.points) == Digits(q.points.whole) + "." + q.points.fraction;
    VarequalsWritten(q);
    hide VarEqualNodes, AnswerTexts, Varequals, ShowDecimal, Digits;
  }

  lemma VarequalWritten(text: string)
    ensures VarEqualNode(text) == Txt(VarEqual, map[RespIdent := "response1"], text)
  {
  }

  lemma VarequalsWritten(q: Question)
    ensures VarEqualNodes(AnswerTexts(q)) == Varequals(q)
  {
    forall text { VarequalWritten(text); }
    hide VarEqualNode, Txt;
    assert |VarEqualNodes(AnswerTexts(q))| == |Varequals(q)|;
    assert forall i | 0 <= i < |Varequals(q)| :: VarEqualNodes(AnswerTexts(q))[i] == Varequals(q)[i];
  }

  /** A bank is one section of the items of its active questions, in order. */
  lemma BankMarkup(bank: Bank)
    ensures
      ExportedTree(bank)
      == Elem(QuestestInterop, map[OtherAttr("xmlns") := "http://www.imsglobal.org/xsd/ims_qtiasiv1p2"], [
           Elem(Assessment, map[Ident := "bank-" + Digits(bank.id), Title := bank.title], [
             Elem(Section, map[Ident := "root-section"], ItemNodes(ActiveOnly(bank.questions)))])])
  {
    hide Digits, ItemNodes, ActiveOnly;
  }

  /** The active questions, in their order. */
  lemma {:induction false} ActiveKept(a: seq<Question>, b: seq<Question>, q: Question)
    ensures ActiveOnly([q]) == if q.active then [q] else []
    ensures ActiveOnly(a + b) == ActiveOnly(a) + ActiveOnly(b)
  {
    assert [q][..0] == [] && ActiveOnly([]) == [];
    if b == [] {
      assert a + b == a && ActiveOnly(b) == [];
    } else {
      var n := |b| - 1;
      assert (a + b)[..|a + b| - 1] == a + b[..n];
      ActiveKept(a, b[..n], q);
    }
  }

  // ----- what is imported

  /** The type of an item: the one declared when it is one of the six; else by its interaction, a choice between
      just true and false being a true/false question. */
  lemma TypeDetected(item: Node)
    ensures
      var declared := FieldEntryOf(item, "question_type");
      var known := {"multiple_choice", "true_false", "short_answer", "essay", "matching", "fill_in_blank"};
      var idents := multiset(Idents(Descendants(item, ResponseLabel)));
      && (declared.Some? && declared.value in known ==> DetectType(item) == declared)
      && (!(declared.Some? && declared.value in known) ==>
           && (Descendants(item, RenderChoice) != [] ==>
                DetectType(item)
                == Some(if idents == multiset{Some("true"), Some("false")} then "true_false" else "multiple_choice"))
           && (Descendants(item, RenderChoice) == [] && Descendants(item, RenderFib) != [] ==>
                DetectType(item) == Some("short_answer"))
           && (Descendants(item, RenderChoice) == [] && Descendants(item, RenderFib) == [] ==>
               DetectType(item) == None))
  {
    hide FieldEntryOf, Within, Descendants, Idents;
  }

  /** An item of no known type is listed as unrecognised, one without prompt or points as invalid, both under its
      title; any other becomes a question. */
  lemma ItemOutcome(item: Node)
    ensures
      var title := if item.Elem? && Title in item.attrs then item.attrs[Title] else "Imported Question";
      var texts := ChildrenOfAll(ChildrenOfAll(Descendants(item, Presentation), Material), MatText);
      var prompt := if texts == [] then title else TextOf(texts[0]);
      var entry := FieldEntryOf(item, "points_possible");
      var points := if entry.Some? then ReadDecimal(entry.value) else Decimal(1, "0");
      match DetectType(item)
      case None => ImportItem(item) == Unrecognized(title)
      case Some(t) =>
        if Blank(prompt) || points == Decimal(0, "0") then ImportItem(item) == Invalid(title)
        else
          ImportItem(item).Created? && var q := ImportItem(item).question;
          q.qtype == t && q.prompt == prompt && q.points == points && AnswerRead(item, t, q)
  {
    PointsRead(item);
    PromptRead(item);
    hide FieldEntryOf, Descendants, Within, ChildrenOfAll, ReadDecimal, TextOf, AnswerRead, PromptOf, Attributes,
      Positive;
    if DetectType(item).Some? {
      var t := DetectType(item).value;
      AttributesNamed(item, t, PromptOf(item));
      AnswerIsRead(item, t, PromptOf(item));
    }
    hide DetectType;
  }

  /** Whole points are read as such with or without a point and zeros, and no other fraction ends in a zero. */
  lemma WholePoints(n: nat, fraction: string)
    ensures ReadDecimal(Digits(n)) == Decimal(n, "0") && ReadDecimal(Digits(n) + ".0") == Decimal(n, "0")
    ensures Canonical(Decimal(n, fraction + "0")) <==> fraction == ""
  {
    var s := Digits(n);
    assert s[..|s|] == s;
    PrefixStops(s, |s|);
    ReadDigitsOfDigits(n);
    ReadShownDecimal(Decimal(n, "0"));
    assert ShowDecimal(Decimal(n, "0")) == s + ".0";
    var padded := fraction + "0";
    assert padded[|padded| - 1] == '0' && padded[..|padded| - 1] == fraction;
  }

  lemma PromptRead(item: Node)
    ensures
      var texts := ChildrenOfAll(ChildrenOfAll(Descendants(item, Presentation), Material), MatText);
      PromptOf(item) == if texts == [] then TitleOf(item) else TextOf(texts[0])
  {
    hide Descendants, ChildrenOfAll, TextOf;
  }

  lemma AttributesNamed(item: Node, t: string, prompt: string)
    ensures
      var entry := FieldEntryOf(item, "points_possible");
      var q := Attributes(item, t, prompt);
      && q.qtype == t && q.prompt == prompt
      && q.points == (if entry.Some? then ReadDecimal(entry.value) else Decimal(1, "0"))
  {
    hide FieldEntryOf, ReadDecimal, Descendants, Responses, ImportedChoices;
  }

  lemma AnswerIsRead(item: Node, t: string, prompt: string)
    ensures AnswerRead(item, t, Attributes(item, t, prompt))
  {
    hide FieldEntryOf, ReadDecimal, Descendants, Below, TextOf, Within, BelowIn;
  }

  lemma PointsRead(item: Node)
    ensures
      var entry := FieldEntryOf(item, "points_possible");
      var points := if entry.Some? then ReadDecimal(entry.value) else Decimal(1, "0");
      Positive(points) <==> points != Decimal(0, "0")
  {
    hide FieldEntryOf;
  }

  /** Choices and key of a multiple choice, the truth value, or the acceptable texts; nothing for other types. */
  predicate AnswerRead(item: Node, t: string, q: Imported) {
    var responses := Below(item, RespCondition, VarEqual);
    if t == "multiple_choice" then
      && q.choices.Some? && ChoicesRead(Descendants(item, ResponseLabel), q.choices.value)
      && q.answer == KeyAnswer(if responses == [] then None else Some(TextOf(responses[0])))
    else if t == "true_false" then
      && q.choices == Some([Choice(Some("true"), "True"), Choice(Some("false"), "False")])
      && q.answer == ValueAnswer(responses != [] && TextOf(responses[0]) == "true")
    else if t == "short_answer" then
      && q.choices == None && q.answer.AcceptableAnswer? && |q.answer.texts| == |responses|
      && forall i | 0 <= i < |responses| :: q.answer.texts[i] == TextOf(responses[i])
    else q.choices == None && q.answer == NoAnswer
  }

  predicate ChoicesRead(labels: seq<Node>, cs: seq<Choice>) {
    && |cs| == |labels|
    && forall i | 0 <= i < |labels| ::
         var texts := Descendants(labels[i], MatText);
         && cs[i].key == (if labels[i].Elem? && Ident in labels[i].attrs then Some(labels[i].attrs[Ident]) else None)
         && cs[i].text == if texts == [] then "" else TextOf(texts[0])
  }
}
