/** Question banks as IMS QTI 1.2 trees: the exporter that builds the tree, the importer that
    queries it, and what survives the trip. */
module Qti {
  import opened Wrappers
  import opened Text

  // ----- trees and the queries XPath makes on them

  datatype Tag =
    | QuestestInterop | Assessment | Section | Item
    | ItemMetadata | QtiMetadata | QtiMetadataField | FieldLabel | FieldEntry
    | Presentation | Material | MatText
    | ResponseLid | ResponseStr | RenderChoice | RenderFib | ResponseLabel
    | ResProcessing | Outcomes | DecVar | RespCondition | ConditionVar | VarEqual | SetVar
    | OtherTag(name: string)

  datatype Attr =
    | Ident | Title | TextType | RCardinality | MaxValue | MinValue | VarName | VarType
    | Continue | RespIdent | Action | OtherAttr(name: string)

  type Attrs = map<Attr, string>

  datatype Node = Elem(tag: Tag, attrs: Attrs, kids: seq<Node>) | TextNode(text: string)

  /** The text of a node: that of its text descendants in order. */
  function TextOf(n: Node): string
    decreases n
  {
    match n
    case TextNode(s) => s
    case Elem(_, _, kids) => TextIn(kids)
  }

  function TextIn(ns: seq<Node>): string
    decreases ns
  {
    if ns == [] then "" else TextOf(ns[0]) + TextIn(ns[1..])
  }

  predicate Is(n: Node, tag: Tag) { n.Elem? && n.tag == tag }

  /** `.//tag`: the proper descendants with a tag, in document order. */
  function Descendants(n: Node, tag: Tag): seq<Node>
    decreases n, 0
  {
    if n.TextNode? then [] else Within(n.kids, tag)
  }

  function Within(ns: seq<Node>, tag: Tag): seq<Node>
    decreases ns
  {
    if ns == [] then [] else
    (if Is(ns[0], tag) then [ns[0]] else []) + Descendants(ns[0], tag) + Within(ns[1..], tag)
  }

  /** `.//outer//tag`: the descendants with a tag that lie below a descendant `outer`. */
  function Below(n: Node, outer: Tag, tag: Tag): seq<Node>
    decreases n, 0
  {
    if n.TextNode? then [] else BelowIn(n.kids, outer, tag)
  }

  function BelowIn(ns: seq<Node>, outer: Tag, tag: Tag): seq<Node>
    decreases ns
  {
    if ns == [] then [] else
    (if Is(ns[0], outer) then Descendants(ns[0], tag) else Below(ns[0], outer, tag)) + BelowIn(ns[1..], outer, tag)
  }

  /** `tag` as a child step. */
  function Children(n: Node, tag: Tag): seq<Node> {
    if n.TextNode? then [] else Filter(n.kids, tag)
  }

  function Filter(ns: seq<Node>, tag: Tag): seq<Node> {
    if ns == [] then [] else (if Is(ns[0], tag) then [ns[0]] else []) + Filter(ns[1..], tag)
  }

  function ChildrenOfAll(ns: seq<Node>, tag: Tag): seq<Node> {
    if ns == [] then [] else Children(ns[0], tag) + ChildrenOfAll(ns[1..], tag)
  }

  function FirstText(ns: seq<Node>): Option<string> {
    if ns == [] then None else Some(TextOf(ns[0]))
  }

  function Texts(ns: seq<Node>): seq<string> {
    seq(|ns|, i requires 0 <= i < |ns| => TextOf(ns[i]))
  }

  // ----- questions

  /** A positive decimal in the digits `BigDecimal#to_s` prints: at least one digit on each side. */
  datatype Decimal = Decimal(whole: nat, fraction: string)

  predicate AllDigits(s: string) { forall i | 0 <= i < |s| :: IsDigit(s[i]) }

  predicate Canonical(p: Decimal) {
    && p.fraction != [] && AllDigits(p.fraction)
    && (p.fraction[|p.fraction| - 1] == '0' ==> p.fraction == "0")
  }

  predicate Positive(p: Decimal) { p.whole > 0 || p.fraction != "0" }

  function ShowDecimal(p: Decimal): string { Digits(p.whole) + ['.'] + p.fraction }

  function DigitPrefix(s: string): (n: nat)
    ensures n <= |s| && AllDigits(s[..n]) && (n < |s| ==> !IsDigit(s[n]))
  {
    if s == [] || !IsDigit(s[0]) then 0
    else
      var n := DigitPrefix(s[1..]) + 1;
      assert s[..n] == [s[0]] + s[1..][..n - 1];
      n
  }

  function StripZeros(s: string): string {
    if s != [] && s[|s| - 1] == '0' then StripZeros(s[..|s| - 1]) else s
  }

  function CanonicalFraction(s: string): string { if StripZeros(s) == [] then "0" else StripZeros(s) }

  /** `to_f` on unsigned plain decimals; anything else reads as far as its digits go. */
  function ReadDecimal(s: string): Decimal {
    var n := DigitPrefix(s);
    var rest := s[n..];
    var fraction := if rest != [] && rest[0] == '.' then rest[1..][..DigitPrefix(rest[1..])] else "";
    Decimal(ReadDigits(s[..n]), CanonicalFraction(fraction))
  }

  lemma ReadShownDecimal(p: Decimal)
    requires Canonical(p)
    ensures ReadDecimal(ShowDecimal(p)) == p
  {
    var s := ShowDecimal(p);
    var n := |Digits(p.whole)|;
    assert s[..n] == Digits(p.whole) && s[n] == '.' && s[n..][1..] == p.fraction;
    PrefixStops(s, n);
    PrefixStops(p.fraction, |p.fraction|);
    ReadDigitsOfDigits(p.whole);
    assert s[n..][0] == '.' && p.fraction[..|p.fraction|] == p.fraction;
    if p.fraction == "0" {
      assert StripZeros("0") == StripZeros("0"[..0]) == [];
    }
  }

  lemma {:induction false} PrefixStops(s: string, n: nat)
    requires n <= |s| && AllDigits(s[..n]) && (n < |s| ==> !IsDigit(s[n]))
    ensures DigitPrefix(s) == n
  {
    if n > 0 {
      assert IsDigit(s[..n][0]) && s[1..][..n - 1] == s[..n][1..];
      PrefixStops(s[1..], n - 1);
    }
  }

  datatype Choice = Choice(key: Option<string>, text: string)

  datatype Answer =
    | NoAnswer
    | KeyAnswer(key: Option<string>)
    | ValueAnswer(value: bool)
    | AcceptableAnswer(texts: seq<string>)
    | OtherAnswer(keys: set<string>)

  datatype Question = Question(
    id: nat, active: bool, qtype: string, prompt: string, points: Decimal,
    choices: Option<seq<Choice>>, answer: Answer)

  const MULTIPLE_CHOICE := "multiple_choice"
  const TRUE_FALSE := "true_false"
  const SHORT_ANSWER := "short_answer"
  const FILL_IN_BLANK := "fill_in_blank"
  const VALID_TYPES := {MULTIPLE_CHOICE, TRUE_FALSE, SHORT_ANSWER, "essay", "matching", FILL_IN_BLANK}

  /** The model's validations. */
  predicate Valid(q: Question) {
    !Blank(q.prompt) && q.qtype in VALID_TYPES && Canonical(q.points) && Positive(q.points)
  }

  // ----- the exported tree

  function Leaf(tag: Tag, attrs: Attrs, text: string): Node { Elem(tag, attrs, [TextNode(text)]) }

  function MaterialNode(attrs: Attrs, text: string): Node { Elem(Material, map[], [Leaf(MatText, attrs, text)]) }

  function FieldNode(name: string, entry: string): Node {
    Elem(QtiMetadataField, map[], [Leaf(FieldLabel, map[], name), Leaf(FieldEntry, map[], entry)])
  }

  const TYPE_FIELD := "question_type"
  const POINTS_FIELD := "points_possible"

  function MetadataNode(q: Question): Node {
    Elem(ItemMetadata, map[], [Elem(QtiMetadata, map[],
      [FieldNode(TYPE_FIELD, q.qtype), FieldNode(POINTS_FIELD, ShowDecimal(q.points))])])
  }

  const PLAIN_TEXT: Attrs := map[TextType := "text/plain"]
  const RESPONSE: Attrs := map[Ident := "response1", RCardinality := "Single"]

  function OrEmpty(s: Option<string>): string { if s.Some? then s.value else "" }

  function ChoiceLabel(c: Choice): Node {
    Elem(ResponseLabel, map[Ident := OrEmpty(c.key)], [MaterialNode(PLAIN_TEXT, c.text)])
  }

  function ChoiceLabels(cs: seq<Choice>): seq<Node> {
    seq(|cs|, i requires 0 <= i < |cs| => ChoiceLabel(cs[i]))
  }

  function ChoicesOf(q: Question): seq<Choice> { if q.choices.Some? then q.choices.value else [] }

  function BooleanLabel(ident: string, text: string): Node {
    Elem(ResponseLabel, map[Ident := ident], [MaterialNode(map[], text)])
  }

  function ChoiceInteraction(labels: seq<Node>): Node {
    Elem(ResponseLid, RESPONSE, [Elem(RenderChoice, map[], labels)])
  }

  function Interaction(q: Question): seq<Node> {
    if q.qtype == MULTIPLE_CHOICE then [ChoiceInteraction(ChoiceLabels(ChoicesOf(q)))]
    else if q.qtype == TRUE_FALSE then
      [ChoiceInteraction([BooleanLabel("true", "True"), BooleanLabel("false", "False")])]
    else if q.qtype == SHORT_ANSWER || q.qtype == FILL_IN_BLANK then
      [Elem(ResponseStr, RESPONSE, [Elem(RenderFib, map[], [Elem(ResponseLabel, map[Ident := "answer1"], [])])])]
    else []
  }

  function PresentationNode(q: Question): Node {
    Elem(Presentation, map[], [MaterialNode(PLAIN_TEXT, q.prompt)] + Interaction(q))
  }

  function VarEqualNode(text: string): Node { Leaf(VarEqual, map[RespIdent := "response1"], text) }

  function VarEqualNodes(texts: seq<string>): seq<Node> {
    seq(|texts|, i requires 0 <= i < |texts| => VarEqualNode(texts[i]))
  }

  /** The answer texts written out; an answer of another shape reads as nil under the key asked for. */
  function AnswerTexts(q: Question): seq<string> {
    if q.qtype == MULTIPLE_CHOICE then [if q.answer.KeyAnswer? then OrEmpty(q.answer.key) else ""]
    else if q.qtype == TRUE_FALSE then
      [if q.answer.ValueAnswer? then (if q.answer.value then "true" else "false") else ""]
    else if q.qtype == SHORT_ANSWER && q.answer.AcceptableAnswer? then q.answer.texts
    else []
  }

  const SET_SCORE: Attrs := map[VarName := "SCORE", Action := "Set"]

  function ConditionNode(q: Question): Node {
    Elem(RespCondition, map[Continue := "No"], [
      Elem(ConditionVar, map[], VarEqualNodes(AnswerTexts(q))),
      Leaf(SetVar, SET_SCORE, ShowDecimal(q.points))])
  }

  function DecVarAttrs(q: Question): Attrs {
    map[MaxValue := ShowDecimal(q.points), MinValue := "0", VarName := "SCORE", VarType := "Decimal"]
  }

  function Processing(q: Question): seq<Node> {
    if q.answer == NoAnswer then []
    else [Elem(ResProcessing, map[], [
      Elem(Outcomes, map[], [Elem(DecVar, DecVarAttrs(q), [])]), ConditionNode(q)])]
  }

  function Truncate(s: string): string { if |s| > 80 then s[..77] + "..." else s }

  function ItemAttrs(q: Question): Attrs { map[Ident := "question-" + Digits(q.id), Title := Truncate(q.prompt)] }

  function ItemNode(q: Question): Node {
    Elem(Item, ItemAttrs(q), [MetadataNode(q), PresentationNode(q)] + Processing(q))
  }

  function ActiveOnly(qs: seq<Question>): seq<Question> {
    if qs == [] then [] else ActiveOnly(qs[..|qs| - 1]) + (if qs[|qs| - 1].active then [qs[|qs| - 1]] else [])
  }

  function ItemNodes(qs: seq<Question>): seq<Node> {
    seq(|qs|, i requires 0 <= i < |qs| => ItemNode(qs[i]))
  }

  datatype Bank = Bank(id: nat, title: string, questions: seq<Question>)

  const ROOT_ATTRS: Attrs := map[OtherAttr("xmlns") := "http://www.imsglobal.org/xsd/ims_qtiasiv1p2"]

  function ExportedTree(bank: Bank): Node {
    Elem(QuestestInterop, ROOT_ATTRS, [
      Elem(Assessment, map[Ident := "bank-" + Digits(bank.id), Title := bank.title], [
        Elem(Section, map[Ident := "root-section"], ItemNodes(ActiveOnly(bank.questions)))])])
  }

  // ----- the exporter, writing into a shared builder

  datatype Frame = Frame(tag: Tag, attrs: Attrs, before: seq<Node>)

  class XmlBuilder {
    var written: seq<Node>  // children of the innermost open element
    var open: seq<Frame>    // the open elements, outermost first

    constructor ()
      ensures written == [] && open == []
    {
      written, open := [], [];
    }

    method Start(tag: Tag, attrs: Attrs)
      modifies this
      ensures open == old(open) + [Frame(tag, attrs, old(written))] && written == []
    {
      open := open + [Frame(tag, attrs, written)];
      written := [];
    }

    method Finish()
      requires open != []
      modifies this
      ensures open == old(open)[..|old(open)| - 1]
      ensures
        var f := old(open)[|old(open)| - 1];
        written == f.before + [Elem(f.tag, f.attrs, old(written))]
    {
      var f := open[|open| - 1];
      written := f.before + [Elem(f.tag, f.attrs, written)];
      open := open[..|open| - 1];
    }

    method WriteLeaf(tag: Tag, attrs: Attrs, text: string)
      modifies this`written
      ensures written == old(written) + [Leaf(tag, attrs, text)]
    {
      written := written + [Leaf(tag, attrs, text)];
    }

    method WriteEmpty(tag: Tag, attrs: Attrs)
      modifies this`written
      ensures written == old(written) + [Elem(tag, attrs, [])]
    {
      written := written + [Elem(tag, attrs, [])];
    }
  }

  class Exporter {
    const xml: XmlBuilder

    constructor ()
      ensures fresh(xml) && xml.written == [] && xml.open == []
    {
      xml := new XmlBuilder();
    }

    method BuildField(name: string, entry: string)
      modifies xml
      ensures xml.open == old(xml.open) && xml.written == old(xml.written) + [FieldNode(name, entry)]
    {
      xml.Start(QtiMetadataField, map[]);
      xml.WriteLeaf(FieldLabel, map[], name);
      xml.WriteLeaf(FieldEntry, map[], entry);
      assert xml.written == [Leaf(FieldLabel, map[], name), Leaf(FieldEntry, map[], entry)];
      xml.Finish();
    }

    method BuildMaterial(attrs: Attrs, text: string)
      modifies xml
      ensures xml.open == old(xml.open) && xml.written == old(xml.written) + [MaterialNode(attrs, text)]
    {
      xml.Start(Material, map[]);
      xml.WriteLeaf(MatText, attrs, text);
      assert xml.written == [Leaf(MatText, attrs, text)];
      xml.Finish();
    }

    method BuildLabel(ident: string, attrs: Attrs, text: string)
      modifies xml
      ensures xml.open == old(xml.open)
      ensures xml.written
           == old(xml.written) + [Elem(ResponseLabel, map[Ident := ident], [MaterialNode(attrs, text)])]
    {
      xml.Start(ResponseLabel, map[Ident := ident]);
      BuildMaterial(attrs, text);
      assert xml.written == [MaterialNode(attrs, text)];
      xml.Finish();
    }

    method BuildChoiceInteraction(q: Question)
      modifies xml
      ensures xml.open == old(xml.open)
      ensures xml.written == old(xml.written) + [ChoiceInteraction(ChoiceLabels(ChoicesOf(q)))]
    {
      xml.Start(ResponseLid, RESPONSE);
      xml.Start(RenderChoice, map[]);
      var cs := ChoicesOf(q);
      ghost var open := xml.open;
      for i := 0 to |cs|
        invariant xml.open == open && xml.written == ChoiceLabels(cs[..i])
      {
        BuildLabel(OrEmpty(cs[i].key), PLAIN_TEXT, cs[i].text);
        assert ChoiceLabels(cs[..i + 1]) == ChoiceLabels(cs[..i]) + [ChoiceLabel(cs[i])];
      }
      assert cs[..|cs|] == cs;
      xml.Finish();
      assert xml.written == [Elem(RenderChoice, map[], ChoiceLabels(cs))];
      xml.Finish();
    }

    method BuildTrueFalseInteraction()
      modifies xml
      ensures xml.open == old(xml.open)
      ensures xml.written
           == old(xml.written) + [ChoiceInteraction([BooleanLabel("true", "True"), BooleanLabel("false", "False")])]
    {
      xml.Start(ResponseLid, RESPONSE);
      xml.Start(RenderChoice, map[]);
      BuildLabel("true", map[], "True");
      BuildLabel("false", map[], "False");
      assert xml.written == [BooleanLabel("true", "True"), BooleanLabel("false", "False")];
      xml.Finish();
      assert xml.written == [Elem(RenderChoice, map[], [BooleanLabel("true", "True"), BooleanLabel("false", "False")])];
      xml.Finish();
    }

    method BuildResprocessing(q: Question)
      modifies xml
      ensures xml.open == old(xml.open) && xml.written == old(xml.written) + Processing(q)
    {
      if q.answer == NoAnswer {
        return;
      }
      xml.Start(ResProcessing, map[]);
      xml.Start(Outcomes, map[]);
      xml.WriteEmpty(DecVar, DecVarAttrs(q));
      assert xml.written == [Elem(DecVar, DecVarAttrs(q), [])];
      xml.Finish();
      ghost var outcomes := Elem(Outcomes, map[], [Elem(DecVar, DecVarAttrs(q), [])]);
      assert xml.written == [outcomes];
      xml.Start(RespCondition, map[Continue := "No"]);
      xml.Start(ConditionVar, map[]);
      var texts := AnswerTexts(q);
      ghost var open := xml.open;
      for i := 0 to |texts|
        invariant xml.open == open && xml.written == VarEqualNodes(texts[..i])
      {
        xml.WriteLeaf(VarEqual, map[RespIdent := "response1"], texts[i]);
        assert VarEqualNodes(texts[..i + 1]) == VarEqualNodes(texts[..i]) + [VarEqualNode(texts[i])];
      }
      assert texts[..|texts|] == texts;
      xml.Finish();
      xml.WriteLeaf(SetVar, SET_SCORE, ShowDecimal(q.points));
      assert xml.written == ConditionNode(q).kids;
      xml.Finish();
      assert xml.written == [outcomes, ConditionNode(q)];
      xml.Finish();
    }

    method BuildMetadata(q: Question)
      modifies xml
      ensures xml.open == old(xml.open) && xml.written == old(xml.written) + [MetadataNode(q)]
    {
      xml.Start(ItemMetadata, map[]);
      xml.Start(QtiMetadata, map[]);
      BuildField(TYPE_FIELD, q.qtype);
      BuildField(POINTS_FIELD, ShowDecimal(q.points));
      assert xml.written == [FieldNode(TYPE_FIELD, q.qtype), FieldNode(POINTS_FIELD, ShowDecimal(q.points))];
      xml.Finish();
      assert xml.written == MetadataNode(q).kids;
      xml.Finish();
    }

    method BuildPresentation(q: Question)
      modifies xml
      ensures xml.open == old(xml.open) && xml.written == old(xml.written) + [PresentationNode(q)]
    {
      hide ChoiceLabels, BooleanLabel;
      xml.Start(Presentation, map[]);
      BuildMaterial(PLAIN_TEXT, q.prompt);
      if q.qtype == MULTIPLE_CHOICE {
        BuildChoiceInteraction(q);
      } else if q.qtype == TRUE_FALSE {
        BuildTrueFalseInteraction();
      } else if q.qtype == SHORT_ANSWER || q.qtype == FILL_IN_BLANK {
        xml.Start(ResponseStr, RESPONSE);
        xml.Start(RenderFib, map[]);
        xml.WriteEmpty(ResponseLabel, map[Ident := "answer1"]);
        assert xml.written == [Elem(ResponseLabel, map[Ident := "answer1"], [])];
        xml.Finish();
        assert xml.written == [Elem(RenderFib, map[], [Elem(ResponseLabel, map[Ident := "answer1"], [])])];
        xml.Finish();
      }
      assert xml.written == PresentationNode(q).kids;
      xml.Finish();
    }

    method BuildItem(q: Question)
      modifies xml
      ensures xml.open == old(xml.open) && xml.written == old(xml.written) + [ItemNode(q)]
    {
      hide MetadataNode, PresentationNode, Processing, ItemAttrs;
      xml.Start(Item, ItemAttrs(q));
      BuildMetadata(q);
      BuildPresentation(q);
      BuildResprocessing(q);
      assert xml.written == ItemNode(q).kids;
      xml.Finish();
    }

    method BuildQti(bank: Bank) returns (tree: Node)
      requires xml.written == []
      modifies xml
      ensures tree == ExportedTree(bank)
    {
      xml.Start(QuestestInterop, ROOT_ATTRS);
      xml.Start(Assessment, map[Ident := "bank-" + Digits(bank.id), Title := bank.title]);
      xml.Start(Section, map[Ident := "root-section"]);
      ghost var open := xml.open;
      for i := 0 to |bank.questions|
        invariant xml.open == open && xml.written == ItemNodes(ActiveOnly(bank.questions[..i]))
      {
        var q := bank.questions[i];
        assert bank.questions[..i + 1][..i] == bank.questions[..i];
        if q.active {
          BuildItem(q);
        }
      }
      assert bank.questions[..|bank.questions|] == bank.questions;
      xml.Finish();
      ghost var section := Elem(Section, map[Ident := "root-section"], ItemNodes(ActiveOnly(bank.questions)));
      assert xml.written == [section];
      xml.Finish();
      assert xml.written == [Elem(Assessment, map[Ident := "bank-" + Digits(bank.id), Title := bank.title], [section])];
      xml.Finish();
      tree := xml.written[|xml.written| - 1];
    }
  }
}
