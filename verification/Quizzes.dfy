/** Quizzes: the stored total of a quiz, automatic marking of an attempt's answers, and its score. */
module Quizzes {
  import opened Wrappers
  import opened Text
  import opened Registry

  // ----- a quiz and its items

  datatype QuizItem = QuizItem(question: int, points: real)

  /** A quiz's items and its stored total, nil until an item is first saved. */
  datatype QuizState = QuizState(items: seq<QuizItem>, possible: Option<real>)

  function Total(items: seq<QuizItem>): real {
    if items == [] then 0.0 else Total(items[..|items| - 1]) + items[|items| - 1].points
  }

  ghost predicate ValidItems(items: seq<QuizItem>) {
    && (forall i | i in items :: i.points > 0.0)
    && (forall i, j | 0 <= i < j < |items| :: items[i].question != items[j].question)
  }

  predicate HasQuestion(items: seq<QuizItem>, question: int) { exists i | i in items :: i.question == question }

  /** `points_possible.to_d` */
  function Possible(q: QuizState): real { if q.possible.Some? then q.possible.value else 0.0 }

  ghost predicate ValidQuiz(q: QuizState) { ValidItems(q.items) && Possible(q) == Total(q.items) }

  function Without(items: seq<QuizItem>, i: nat): seq<QuizItem>
    requires i < |items|
  {
    items[..i] + items[i + 1..]
  }

  datatype Edit = Create(item: QuizItem) | Update(position: nat, item: QuizItem) | Destroy(position: nat)

  /** Whether the validations let an edit through; the row must exist. */
  predicate Accepted(items: seq<QuizItem>, e: Edit) {
    match e
    case Create(item) => item.points > 0.0 && !HasQuestion(items, item.question)
    case Update(i, item) => i < |items| && item.points > 0.0 && !HasQuestion(Without(items, i), item.question)
    case Destroy(i) => i < |items|
  }

  function Edited(items: seq<QuizItem>, e: Edit): seq<QuizItem>
    requires Accepted(items, e)
  {
    match e
    case Create(item) => items + [item]
    case Update(i, item) => items[i := item]
    case Destroy(i) => Without(items, i)
  }

  /** An edit and its callback; a rejected one changes nothing. */
  function AfterEdit(q: QuizState, e: Edit): QuizState {
    if !Accepted(q.items, e) then q else
    var items := Edited(q.items, e);
    QuizState(items, Some(Total(items)))
  }

  function AfterEdits(q: QuizState, es: seq<Edit>): QuizState {
    if es == [] then q else AfterEdit(AfterEdits(q, es[..|es| - 1]), es[|es| - 1])
  }

  lemma CreateKeepsItems(items: seq<QuizItem>, item: QuizItem)
    requires ValidItems(items) && item.points > 0.0 && !HasQuestion(items, item.question)
    ensures ValidItems(items + [item])
  {
    assert forall i | 0 <= i < |items| :: items[i] in items;
  }

  lemma UpdateKeepsItems(items: seq<QuizItem>, k: nat, item: QuizItem)
    requires ValidItems(items) && Accepted(items, Update(k, item))
    ensures ValidItems(items[k := item])
  {
    var rest, updated := Without(items, k), items[k := item];
    forall i | 0 <= i < |items| && i != k
      ensures items[i].question != item.question
    {
      var at := if i < k then i else i - 1;
      assert rest[at] == items[i] && rest[at] in rest;
    }
    assert forall x | x in updated :: x == item || x in items;
  }

  lemma DestroyKeepsItems(items: seq<QuizItem>, k: nat)
    requires ValidItems(items) && k < |items|
    ensures ValidItems(Without(items, k))
  {
    var rest := Without(items, k);
    assert forall i | 0 <= i < |rest| :: rest[i] == if i < k then items[i] else items[i + 1];
  }

  lemma EditKeepsItems(items: seq<QuizItem>, e: Edit)
    requires ValidItems(items) && Accepted(items, e)
    ensures ValidItems(Edited(items, e))
  {
    hide ValidItems, HasQuestion, Without;
    match e
    case Create(item) => CreateKeepsItems(items, item);
    case Update(k, item) => UpdateKeepsItems(items, k, item);
    case Destroy(k) => DestroyKeepsItems(items, k);
  }

  /** Over every run of edits, accepted or not, the stored total is the sum of the items' points. */
  lemma {:induction false} RunKeepsTotal(q: QuizState, es: seq<Edit>)
    requires ValidQuiz(q)
    ensures ValidQuiz(AfterEdits(q, es))
  {
    if es != [] {
      var before, e := AfterEdits(q, es[..|es| - 1]), es[|es| - 1];
      RunKeepsTotal(q, es[..|es| - 1]);
      if Accepted(before.items, e) {
        EditKeepsItems(before.items, e);
      }
    }
  }

  class Quiz {
    var items: seq<QuizItem>
    var pointsPossible: Option<real>

    function State(): QuizState
      reads this
    {
      QuizState(items, pointsPossible)
    }

    constructor ()
      ensures State() == QuizState([], None) && ValidQuiz(State())
    {
      items, pointsPossible := [], None;
    }

    method CalculatePoints()
      modifies this`pointsPossible
      ensures pointsPossible == Some(Total(items))
    {
      var sum := 0.0;
      for i := 0 to |items|
        invariant sum == Total(items[..i])
      {
        assert items[..i + 1][..i] == items[..i];
        sum := sum + items[i].points;
      }
      assert items[..|items|] == items;
      pointsPossible := Some(sum);
    }

    method CreateItem(item: QuizItem) returns (ok: bool)
      modifies this
      ensures State() == AfterEdit(old(State()), Create(item)) && ok == Accepted(old(items), Create(item))
    {
      ok := item.points > 0.0 && !HasQuestion(items, item.question);
      if ok {
        items := items + [item];
        CalculatePoints();
      }
    }

    method UpdateItem(position: nat, item: QuizItem) returns (ok: bool)
      requires position < |items|
      modifies this
      ensures State() == AfterEdit(old(State()), Update(position, item))
          && ok == Accepted(old(items), Update(position, item))
    {
      ok := item.points > 0.0 && !HasQuestion(items[..position] + items[position + 1..], item.question);
      if ok {
        items := items[position := item];
        CalculatePoints();
      }
    }

    method DestroyItem(position: nat)
      requires position < |items|
      modifies this
      ensures State() == AfterEdit(old(State()), Destroy(position))
    {
      items := items[..position] + items[position + 1..];
      CalculatePoints();
    }
  }

  // ----- checking one answer

  datatype QuestionType = MultipleChoice | TrueFalse | ShortAnswer | Essay | Matching | FillInBlank

  datatype Question = Question(id: int, kind: QuestionType, correct: Json)

  predicate AutoGradable(q: Question) { q.kind != Essay }

  /** Ruby's `downcase` beside the conversions of the JSON model. */
  datatype Ruby = Ruby(host: Host, downcase: string -> string)

  /** `values.map(&:downcase)`: only strings have it. */
  function Lowered(r: Ruby, values: seq<Json>): Result<seq<string>> {
    if values == [] then Ok([]) else
    var init :- Lowered(r, values[..|values| - 1]);
    match values[|values| - 1]
    case Str(s) => Ok(init + [r.downcase(s)])
    case _ => Raised
  }

  function Pair(r: Ruby, v: Json): Result<(string, string)> {
    var left :- Index(v, "left");
    var right :- Index(v, "right");
    Ok((r.downcase(ToS(r.host, left)), r.downcase(ToS(r.host, right))))
  }

  function PairSet(r: Ruby, values: seq<Json>): Result<set<(string, string)>> {
    if values == [] then Ok({}) else
    var init :- PairSet(r, values[..|values| - 1]);
    var last :- Pair(r, values[|values| - 1]);
    Ok(init + {last})
  }

  function NormalizePairs(r: Ruby, v: Json): Result<set<(string, string)>> { PairSet(r, ToArray(r.host, v)) }

  /** `answer[key] == correct_answer[key]` */
  function SameField(answer: Json, correct: Json, key: string): Result<bool> {
    var given :- Index(answer, key);
    var expected :- Index(correct, key);
    Ok(given == expected)
  }

  function CheckAnswer(r: Ruby, q: Question, answer: Json): Result<bool> {
    match q.kind
    case MultipleChoice => SameField(answer, q.correct, "key")
    case TrueFalse => SameField(answer, q.correct, "value")
    case ShortAnswer =>
      var expected :- Index(q.correct, "acceptable");
      var acceptable :- Lowered(r, ToArray(r.host, expected));
      var given :- Index(answer, "text");
      Ok(r.downcase(Strip(ToS(r.host, given))) in acceptable)
    case Matching =>
      var given :- Index(answer, "pairs");
      var givenPairs :- NormalizePairs(r, given);
      var expected :- Index(q.correct, "pairs");
      var expectedPairs :- NormalizePairs(r, expected);
      Ok(givenPairs == expectedPairs)
    case FillInBlank =>
      var given :- Index(answer, "answers");
      var givenAnswers :- Lowered(r, ToArray(r.host, given));
      var expected :- Index(q.correct, "answers");
      var expectedAnswers :- Lowered(r, ToArray(r.host, expected));
      Ok(givenAnswers == expectedAnswers)
    case Essay => Ok(false)
  }

  lemma {:induction false} PairSetContents(r: Ruby, values: seq<Json>)
    ensures PairSet(r, values).Raised? <==> exists v | v in values :: Pair(r, v).Raised?
    ensures PairSet(r, values).Ok? ==>
      forall p :: p in PairSet(r, values).value <==> exists v | v in values :: Pair(r, v) == Ok(p)
  {
    hide Pair;
    if values != [] {
      var init, last := values[..|values| - 1], values[|values| - 1];
      PairSetContents(r, init);
      assert forall v :: v in values <==> v in init || v == last;
    }
  }

  /** Marking a matching answer depends neither on the order nor on the repetition of its pairs. */
  lemma PairsUnordered(r: Ruby, q: Question, a: seq<Json>, b: seq<Json>)
    requires q.kind == Matching && forall v :: v in a <==> v in b
    ensures CheckAnswer(r, q, Obj(map["pairs" := Arr(a)])) == CheckAnswer(r, q, Obj(map["pairs" := Arr(b)]))
  {
    PairSetContents(r, a);
    PairSetContents(r, b);
    hide Pair;
    if PairSet(r, a).Ok? {
      assert PairSet(r, a).value == PairSet(r, b).value;
    }
  }

  /** A choice answer that names nothing, or null, is marked correct iff the question's own answer does. */
  lemma EmptyAnswerCorrectIff(r: Ruby, q: Question, answer: Json)
    requires q.kind == MultipleChoice || q.kind == TrueFalse
    requires Index(answer, if q.kind == MultipleChoice then "key" else "value") == Ok(Null)
    ensures
      var key := if q.kind == MultipleChoice then "key" else "value";
      CheckAnswer(r, q, answer) == Ok(true) <==> Index(q.correct, key) == Ok(Null)
  {
  }

  lemma {:induction false} LoweredStrings(r: Ruby, ss: seq<string>)
    ensures
      var lowered := Lowered(r, StrArr(ss).items);
      lowered.Ok? && |lowered.value| == |ss| && forall i | 0 <= i < |ss| :: lowered.value[i] == r.downcase(ss[i])
  {
    if ss != [] {
      var n := |ss| - 1;
      LoweredStrings(r, ss[..n]);
      assert StrArr(ss).items[..n] == StrArr(ss[..n]).items;
    }
  }

  /** A short answer is correct iff, trimmed, it is an acceptable one up to case. The acceptable ones are
      not trimmed. */
  lemma ShortAnswerCorrectIff(r: Ruby, q: Question, acceptable: seq<string>, text: string)
    requires q.kind == ShortAnswer && q.correct == Obj(map["acceptable" := StrArr(acceptable)])
    ensures CheckAnswer(r, q, Obj(map["text" := Str(text)]))
         == Ok(exists a | a in acceptable :: r.downcase(a) == r.downcase(Strip(text)))
  {
    hide Strip;
    LoweredStrings(r, acceptable);
    var lowered := Lowered(r, StrArr(acceptable).items).value;
    var given := r.downcase(Strip(text));
    if a :| a in acceptable && r.downcase(a) == given {
      var i :| 0 <= i < |acceptable| && acceptable[i] == a;
      assert lowered[i] == given;
    }
    if given in lowered {
      var i :| 0 <= i < |lowered| && lowered[i] == given;
      assert acceptable[i] in acceptable;
    }
  }

  /** Blanks are filled in correctly iff each is, up to case, in order and none is left over. */
  lemma FillInBlankCorrectIff(r: Ruby, q: Question, expected: seq<string>, given: seq<string>)
    requires q.kind == FillInBlank && q.correct == Obj(map["answers" := StrArr(expected)])
    ensures CheckAnswer(r, q, Obj(map["answers" := StrArr(given)]))
         == Ok(|given| == |expected| && forall i | 0 <= i < |given| :: r.downcase(given[i]) == r.downcase(expected[i]))
  {
    LoweredStrings(r, expected);
    LoweredStrings(r, given);
    var a, b := Lowered(r, StrArr(given).items).value, Lowered(r, StrArr(expected).items).value;
    assert a == b ==> forall i | 0 <= i < |given| :: a[i] == b[i];
  }

  // ----- an attempt

  datatype Status = InProgress | Submitted | Graded

  datatype Answer = Answer(question: Question, answer: Json, isCorrect: Option<bool>, points: Option<real>)

  /** The percentage is in hundredths of a point. */
  datatype Attempt = Attempt(status: Status, answers: seq<Answer>, score: Option<real>, percentage: Option<int>)

  /** `quiz_item&.points.to_d` */
  function PointsOf(items: seq<QuizItem>, question: int): real {
    if items == [] then 0.0
    else if items[|items| - 1].question == question then items[|items| - 1].points
    else PointsOf(items[..|items| - 1], question)
  }

  function AutoGrade(r: Ruby, items: seq<QuizItem>, a: Answer): Result<Answer> {
    if !AutoGradable(a.question) then Ok(a) else
    var correct :- CheckAnswer(r, a.question, a.answer);
    Ok(a.(isCorrect := Some(correct), points := Some(if correct then PointsOf(items, a.question.id) else 0.0)))
  }

  /** The answers after marking the first `n` of them, in order, up to the first that raises. */
  function Marked(r: Ruby, items: seq<QuizItem>, answers: seq<Answer>, n: nat): (m: (seq<Answer>, bool))
    requires n <= |answers|
    ensures |m.0| == |answers| && forall i | n <= i < |answers| :: m.0[i] == answers[i]
  {
    if n == 0 then (answers, true) else
    var m := Marked(r, items, answers, n - 1);
    if !m.1 then m else
    match AutoGrade(r, items, answers[n - 1])
    case Ok(a) => (m.0[n - 1 := a], true)
    case Raised => (m.0, false)
  }

  function Awarded(answers: seq<Answer>): real {
    if answers == [] then 0.0 else
    Awarded(answers[..|answers| - 1])
    + if answers[|answers| - 1].points.Some? then answers[|answers| - 1].points.value else 0.0
  }

  predicate AllMarked(answers: seq<Answer>) { forall a | a in answers :: a.points.Some? }

  /** `(awarded / total * 100).round(2)`, in hundredths. */
  function Percentage(awarded: real, total: real): int {
    if total > 0.0 then (awarded / total * 10000.0 + 0.5).Floor else 0
  }

  function Scored(a: Attempt, possible: real): Attempt {
    var awarded := Awarded(a.answers);
    a.(score := Some(awarded), percentage := Some(Percentage(awarded, possible)),
       status := if AllMarked(a.answers) then Graded else a.status)
  }

  /** `submit!`: the attempt afterwards, and whether it returned rather than raised. */
  function Submission(r: Ruby, q: QuizState, a: Attempt): (Attempt, bool) {
    if a.status != InProgress then (a, false) else
    var m := Marked(r, q.items, a.answers, |a.answers|);
    var marked := a.(status := Submitted, answers := m.0);
    if m.1 then (Scored(marked, Possible(q)), true) else (marked, false)
  }

  class QuizAttempt {
    const ruby: Ruby
    const quiz: Quiz
    var status: Status
    var answers: seq<Answer>
    var score: Option<real>
    var percentage: Option<int>

    function State(): Attempt
      reads this
    {
      Attempt(status, answers, score, percentage)
    }

    constructor (ruby: Ruby, quiz: Quiz, answers: seq<Answer>)
      ensures State() == Attempt(InProgress, answers, None, None) && this.ruby == ruby && this.quiz == quiz
    {
      this.ruby, this.quiz := ruby, quiz;
      status, this.answers, score, percentage := InProgress, answers, None, None;
    }

    method CalculateScore()
      modifies this`status, this`score, this`percentage
      ensures State() == Scored(old(State()), Possible(quiz.State()))
    {
      var awarded := 0.0;
      for i := 0 to |answers|
        invariant awarded == Awarded(answers[..i])
      {
        assert answers[..i + 1][..i] == answers[..i];
        if answers[i].points.Some? {
          awarded := awarded + answers[i].points.value;
        }
      }
      assert answers[..|answers|] == answers;
      var total := Possible(quiz.State());
      score, percentage := Some(awarded), Some(Percentage(awarded, total));
      if forall a | a in answers :: a.points.Some? {
        status := Graded;
      }
    }

    method GradeAutoGradableAnswers() returns (ok: bool)
      modifies this
      ensures
        var m := Marked(ruby, quiz.items, old(answers), |old(answers)|);
        var marked := old(State()).(answers := m.0);
        ok == m.1 && State() == if ok then Scored(marked, Possible(quiz.State())) else marked
    {
      hide AutoGrade;
      for i := 0 to |answers|
        invariant (answers, true) == Marked(ruby, quiz.items, old(answers), i)
        invariant status == old(status) && score == old(score) && percentage == old(percentage)
      {
        match AutoGrade(ruby, quiz.items, answers[i]) {
          case Ok(marked) =>
            answers := answers[i := marked];
          case Raised =>
            MarkingStops(ruby, quiz.items, old(answers), i + 1, |answers|);
            return false;
        }
      }
      CalculateScore();
      return true;
    }

    method Submit() returns (ok: bool)
      modifies this
      ensures (State(), ok) == Submission(ruby, quiz.State(), old(State()))
    {
      hide Marked, Scored;
      if status != InProgress {
        return false;
      }
      status := Submitted;
      ok := GradeAutoGradableAnswers();
    }
  }

  lemma {:induction false} MarkingStops(r: Ruby, items: seq<QuizItem>, answers: seq<Answer>, n: nat, m: nat)
    requires n <= m <= |answers| && !Marked(r, items, answers, n).1
    ensures Marked(r, items, answers, m) == Marked(r, items, answers, n)
  {
    if n < m {
      MarkingStops(r, items, answers, n, m - 1);
    }
  }

  // ----- what a submitted attempt says

  predicate AnswersCorrectly(r: Ruby, a: Answer) {
    AutoGradable(a.question) && CheckAnswer(r, a.question, a.answer) == Ok(true)
  }

  /** One answer per question, each of them markable. */
  ghost predicate Markable(answers: seq<Answer>) {
    && (forall a | a in answers :: AutoGradable(a.question))
    && (forall i, j | 0 <= i < j < |answers| :: answers[i].question.id != answers[j].question.id)
  }

  predicate HasCorrect(r: Ruby, answers: seq<Answer>, question: int) {
    exists a | a in answers :: a.question.id == question && AnswersCorrectly(r, a)
  }

  /** The points of the items that some answer gets right. */
  function Earned(r: Ruby, items: seq<QuizItem>, answers: seq<Answer>): real {
    if items == [] then 0.0 else
    var last := items[|items| - 1];
    Earned(r, items[..|items| - 1], answers) + if HasCorrect(r, answers, last.question) then last.points else 0.0
  }

  lemma {:induction false} MarkedAll(r: Ruby, items: seq<QuizItem>, answers: seq<Answer>, n: nat)
    requires n <= |answers|
    ensures Marked(r, items, answers, n).1 <==> forall i | 0 <= i < n :: AutoGrade(r, items, answers[i]).Ok?
    ensures
      var (marked, ok) := Marked(r, items, answers, n);
      ok ==> forall i | 0 <= i < n :: AutoGrade(r, items, answers[i]) == Ok(marked[i])
  {
    hide AutoGrade;
    if n > 0 {
      MarkedAll(r, items, answers, n - 1);
    }
  }

  lemma {:induction false} NotInQuiz(items: seq<QuizItem>, question: int)
    requires !HasQuestion(items, question)
    ensures PointsOf(items, question) == 0.0
  {
    if items != [] {
      assert items[|items| - 1] in items;
      NotInQuiz(items[..|items| - 1], question);
    }
  }

  lemma ItemsInit(items: seq<QuizItem>)
    requires ValidItems(items) && items != []
    ensures ValidItems(items[..|items| - 1]) && !HasQuestion(items[..|items| - 1], items[|items| - 1].question)
    ensures items[|items| - 1].points > 0.0
  {
    assert items[|items| - 1] in items;
  }

  /** One more answer adds its item's points when it is correct and nothing otherwise. */
  lemma {:induction false} EarnedOneMore(r: Ruby, items: seq<QuizItem>, answers: seq<Answer>, a: Answer)
    requires ValidItems(items) && forall b | b in answers :: b.question.id != a.question.id
    ensures Earned(r, items, answers + [a])
         == Earned(r, items, answers) + if AnswersCorrectly(r, a) then PointsOf(items, a.question.id) else 0.0
  {
    hide AnswersCorrectly;
    if items != [] {
      var init, last := items[..|items| - 1], items[|items| - 1];
      ItemsInit(items);
      EarnedOneMore(r, init, answers, a);
      assert forall b :: b in answers + [a] <==> b in answers || b == a;
      if last.question == a.question.id {
        NotInQuiz(init, a.question.id);
        assert !HasCorrect(r, answers, last.question);
        assert HasCorrect(r, answers + [a], last.question) <==> AnswersCorrectly(r, a);
      } else {
        assert HasCorrect(r, answers + [a], last.question) <==> HasCorrect(r, answers, last.question);
      }
    }
  }

  lemma {:induction false} NothingEarned(r: Ruby, items: seq<QuizItem>)
    ensures Earned(r, items, []) == 0.0
  {
    if items != [] {
      NothingEarned(r, items[..|items| - 1]);
    }
  }

  /** The points awarded to the answers are those of the items got right. */
  lemma {:induction false} AwardedIsEarned(r: Ruby, items: seq<QuizItem>, answers: seq<Answer>, marked: seq<Answer>)
    requires ValidItems(items) && Markable(answers) && |marked| == |answers|
    requires forall i | 0 <= i < |answers| :: AutoGrade(r, items, answers[i]) == Ok(marked[i])
    ensures Awarded(marked) == Earned(r, items, answers) && AllMarked(marked)
  {
    if answers == [] {
      NothingEarned(r, items);
    } else {
      var n := |answers| - 1;
      var init, a := answers[..n], answers[n];
      assert a in answers && forall b | b in init :: b in answers;
      assert Markable(init);
      AwardedIsEarned(r, items, init, marked[..n]);
      MarkedPoints(r, items, a);
      EarnedOneMore(r, items, init, a);
      assert init + [a] == answers;
      hide Earned, AutoGrade, Markable;
      assert forall m | m in marked :: m in marked[..n] || m == marked[n];
    }
  }

  lemma MarkedPoints(r: Ruby, items: seq<QuizItem>, a: Answer)
    requires AutoGradable(a.question) && AutoGrade(r, items, a).Ok?
    ensures AutoGrade(r, items, a).value.points
        == Some(if AnswersCorrectly(r, a) then PointsOf(items, a.question.id) else 0.0)
  {
  }

  ghost predicate AllCorrect(r: Ruby, items: seq<QuizItem>, answers: seq<Answer>) {
    forall i | i in items :: HasCorrect(r, answers, i.question)
  }

  lemma {:induction false} EarnedBounds(r: Ruby, items: seq<QuizItem>, answers: seq<Answer>)
    requires ValidItems(items)
    ensures 0.0 <= Earned(r, items, answers) <= Total(items)
    ensures Earned(r, items, answers) == Total(items) <==> AllCorrect(r, items, answers)
  {
    hide HasCorrect;
    if items != [] {
      var init, last := items[..|items| - 1], items[|items| - 1];
      ItemsInit(items);
      EarnedBounds(r, init, answers);
      assert forall i :: i in items <==> i in init || i == last;
    }
  }

  lemma SignOfProduct(x: real, factor: real)
    requires factor > 0.0
    ensures x * factor >= 0.0 <==> x >= 0.0
  {
  }

  lemma ShareBounds(awarded: real, total: real)
    requires 0.0 <= awarded <= total && total > 0.0
    ensures 0.0 <= awarded / total <= 1.0
  {
    var share := awarded / total;
    assert share * total == awarded;
    SignOfProduct(share, total);
    SignOfProduct(1.0 - share, total);
  }

  lemma PercentageBounds(awarded: real, total: real)
    requires 0.0 <= awarded <= total
    ensures 0 <= Percentage(awarded, total) <= 10000
  {
    if total > 0.0 {
      ShareBounds(awarded, total);
    }
  }

  /** Rounding shows 100 percent already from a score of 99.995 percent of the points on. */
  lemma FullPercentageIff(awarded: real, total: real)
    requires 0.0 <= awarded <= total && total > 0.0
    ensures Percentage(awarded, total) == 10000 <==> 20000.0 * awarded >= 19999.0 * total
  {
    ShareBounds(awarded, total);
    var share := awarded / total;
    assert share * total == awarded;
    assert Percentage(awarded, total) == 10000 <==> share * 20000.0 >= 19999.0;
    var over := share * 20000.0 - 19999.0;
    assert over * total == 20000.0 * awarded - 19999.0 * total;
    SignOfProduct(over, total);
  }

  /** Submitting raises iff the attempt was submitted before or some answer cannot be checked. */
  lemma SubmissionReturnsIff(r: Ruby, q: QuizState, a: Attempt)
    ensures
      var checked := forall b | b in a.answers && AutoGradable(b.question) :: CheckAnswer(r, b.question, b.answer).Ok?;
      Submission(r, q, a).1 <==> a.status == InProgress && checked
  {
    MarkedAll(r, q.items, a.answers, |a.answers|);
    hide CheckAnswer, Marked, Scored;
    assert forall b: Answer ::
      AutoGrade(r, q.items, b).Ok? <==> (AutoGradable(b.question) ==> CheckAnswer(r, b.question, b.answer).Ok?);
    hide AutoGrade;
    assert forall b :: b in a.answers <==> exists i | 0 <= i < |a.answers| :: a.answers[i] == b;
  }

  /** A submitted attempt whose answers can all be marked ends graded; its score and percentage lie in
      range, and it is full marks iff every item of the quiz has a correct answer. */
  lemma SubmissionScored(r: Ruby, q: QuizState, a: Attempt)
    requires ValidQuiz(q) && Markable(a.answers) && Submission(r, q, a).1
    ensures
      var after := Submission(r, q, a).0;
      && after.status == Graded && after.score.Some? && after.percentage.Some?
      && 0.0 <= after.score.value <= Possible(q) && 0 <= after.percentage.value <= 10000
      && (after.score.value == Possible(q) <==> AllCorrect(r, q.items, a.answers))
  {
    var marked := Marked(r, q.items, a.answers, |a.answers|).0;
    MarkedAll(r, q.items, a.answers, |a.answers|);
    AwardedIsEarned(r, q.items, a.answers, marked);
    EarnedBounds(r, q.items, a.answers);
    PercentageBounds(Awarded(marked), Possible(q));
  }

  /** In general it ends graded iff every answer left for a person already had points. */
  lemma SubmissionGradedIff(r: Ruby, q: QuizState, a: Attempt)
    requires Submission(r, q, a).1
    ensures Submission(r, q, a).0.status == Graded <==>
      forall b | b in a.answers :: AutoGradable(b.question) || b.points.Some?
  {
    var n := |a.answers|;
    var marked := Marked(r, q.items, a.answers, n).0;
    MarkedAll(r, q.items, a.answers, n);
    hide CheckAnswer, Marked;
    forall i | 0 <= i < n
      ensures marked[i].points.Some? <==> AutoGradable(a.answers[i].question) || a.answers[i].points.Some?
    {
      assert AutoGrade(r, q.items, a.answers[i]) == Ok(marked[i]);
    }
    hide AutoGrade;
    assert AllMarked(marked) <==> forall i | 0 <= i < n :: marked[i].points.Some?;
    assert forall b :: b in a.answers <==> exists i | 0 <= i < n :: a.answers[i] == b;
  }

  /** An attempt whose marking raised stays submitted without a score, and can never be submitted again. */
  lemma FailedSubmissionSticks(r: Ruby, q: QuizState, a: Attempt, r2: Ruby, q2: QuizState)
    requires a.status == InProgress && !Submission(r, q, a).1
    ensures
      var after := Submission(r, q, a).0;
      && after.status == Submitted && after.score == a.score && after.percentage == a.percentage
      && Submission(r2, q2, after) == (after, false)
      && exists i | 0 <= i < |a.answers| ::
           CheckAnswer(r, a.answers[i].question, a.answers[i].answer).Raised?
           && forall j | i <= j < |a.answers| :: after.answers[j] == a.answers[j]
  {
    MarkingFails(r, q.items, a.answers, |a.answers|);
  }

  lemma {:induction false} MarkingFails(r: Ruby, items: seq<QuizItem>, answers: seq<Answer>, n: nat)
    requires n <= |answers| && !Marked(r, items, answers, n).1
    ensures exists i | 0 <= i < n ::
      CheckAnswer(r, answers[i].question, answers[i].answer).Raised?
      && forall j | i <= j < |answers| :: Marked(r, items, answers, n).0[j] == answers[j]
  {
    hide CheckAnswer;
    if !Marked(r, items, answers, n - 1).1 {
      MarkingFails(r, items, answers, n - 1);
    }
  }

  /** A question without an answer of its own is one: the attempt is stuck. */
  lemma UnansweredQuestionSticks(r: Ruby, q: QuizState, answer: Json)
    ensures
      var a := Attempt(InProgress, [Answer(Question(1, MultipleChoice, Null), answer, None, None)], None, None);
      Submission(r, q, a) == (a.(status := Submitted), false)
  {
    var a := Answer(Question(1, MultipleChoice, Null), answer, None, None);
    assert AutoGrade(r, q.items, a).Raised?;
    assert Marked(r, q.items, [a], 1) == ([a], false);
  }
}
