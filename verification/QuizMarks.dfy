/** What a mark says: when each kind of answer is correct, what it earns, and which edits a quiz accepts. */
module QuizMarks {
  import opened Wrappers
  import opened Registry
  import opened Quizzes

  // ----- choices

  /** Between hashes a multiple choice is correct iff both name the same key, or neither names one. */
  lemma ChoiceCorrectIff(r: Ruby, q: Question, answer: Fields, correct: Fields)
    requires q.kind == MultipleChoice && q.correct == Obj(correct)
    ensures
      CheckAnswer(r, q, Obj(answer))
      == Ok(if "key" in answer && "key" in correct then answer["key"] == correct["key"]
            else ("key" in answer ==> answer["key"] == Null) && ("key" in correct ==> correct["key"] == Null))
  {
  }

  /** A true/false answer likewise, by its value. */
  lemma TrueFalseCorrectIff(r: Ruby, q: Question, answer: Fields, correct: Fields)
    requires q.kind == TrueFalse && q.correct == Obj(correct)
    ensures
      CheckAnswer(r, q, Obj(answer))
      == Ok(if "value" in answer && "value" in correct then answer["value"] == correct["value"]
            else ("value" in answer ==> answer["value"] == Null) && ("value" in correct ==> correct["value"] == Null))
  {
  }

  /** In particular an answer that names one choice is correct iff that is the one to choose. */
  lemma NamedChoiceCorrectIff(r: Ruby, id: int, chosen: string, correct: string)
    ensures
      CheckAnswer(r, Question(id, MultipleChoice, Obj(map["key" := Str(correct)])), Obj(map["key" := Str(chosen)]))
      == Ok(chosen == correct)
  {
    ChoiceCorrectIff(r, Question(id, MultipleChoice, Obj(map["key" := Str(correct)])), map["key" := Str(chosen)],
      map["key" := Str(correct)]);
  }

  // ----- matching

  function PairJson(p: (string, string)): Json { Obj(map["left" := Str(p.0), "right" := Str(p.1)]) }

  function PairsJson(ps: seq<(string, string)>): (vs: seq<Json>)
    ensures |vs| == |ps| && forall i | 0 <= i < |ps| :: vs[i] == PairJson(ps[i])
  {
    seq(|ps|, i requires 0 <= i < |ps| => PairJson(ps[i]))
  }

  /** A pair of the one list is in the other, up to case. */
  predicate Matched(r: Ruby, p: (string, string), ps: seq<(string, string)>) {
    exists i | 0 <= i < |ps| :: r.downcase(ps[i].0) == r.downcase(p.0) && r.downcase(ps[i].1) == r.downcase(p.1)
  }

  function LowPairs(r: Ruby, ps: seq<(string, string)>): set<(string, string)> {
    set i | 0 <= i < |ps| :: (r.downcase(ps[i].0), r.downcase(ps[i].1))
  }

  lemma PairRead(r: Ruby, p: (string, string))
    ensures Pair(r, PairJson(p)) == Ok((r.downcase(p.0), r.downcase(p.1)))
  {
  }

  lemma {:induction false} PairSetOf(r: Ruby, ps: seq<(string, string)>)
    ensures PairSet(r, PairsJson(ps)) == Ok(LowPairs(r, ps))
  {
    if ps == [] {
      assert LowPairs(r, ps) == {} && PairsJson(ps) == [];
    } else {
      var n := |ps| - 1;
      PairSetOf(r, ps[..n]);
      PairRead(r, ps[n]);
      hide Pair, PairJson;
      assert PairsJson(ps)[..n] == PairsJson(ps[..n]) && PairsJson(ps)[n] == PairJson(ps[n]);
      assert LowPairs(r, ps) == LowPairs(r, ps[..n]) + {(r.downcase(ps[n].0), r.downcase(ps[n].1))};
    }
  }

  /** A matching answer is correct iff each of its pairs is, up to case, one of the question's and the other way
      round. */
  lemma MatchingCorrectIff(r: Ruby, q: Question, given: seq<(string, string)>, expected: seq<(string, string)>)
    requires q.kind == Matching && q.correct == Obj(map["pairs" := Arr(PairsJson(expected))])
    ensures
      CheckAnswer(r, q, Obj(map["pairs" := Arr(PairsJson(given))]))
      == Ok((forall p | p in given :: Matched(r, p, expected)) && forall p | p in expected :: Matched(r, p, given))
  {
    PairSetOf(r, given);
    PairSetOf(r, expected);
    hide PairSet, PairsJson;
    SubsetIff(r, given, expected);
    SubsetIff(r, expected, given);
  }

  lemma SubsetIff(r: Ruby, ps: seq<(string, string)>, qs: seq<(string, string)>)
    ensures LowPairs(r, ps) <= LowPairs(r, qs) <==> forall p | p in ps :: Matched(r, p, qs)
  {
    forall p | p in ps
      ensures (r.downcase(p.0), r.downcase(p.1)) in LowPairs(r, ps)
      ensures Matched(r, p, qs) <==> (r.downcase(p.0), r.downcase(p.1)) in LowPairs(r, qs)
    {
    }
    hide Matched;
    assert forall i | 0 <= i < |ps| :: ps[i] in ps;
  }

  // ----- what an answer earns

  /** Only essays are left to a person: nothing is written to them. */
  lemma EssayLeft(r: Ruby, items: seq<QuizItem>, a: Answer)
    ensures AutoGradable(a.question) <==>
      a.question.kind in {MultipleChoice, TrueFalse, ShortAnswer, Matching, FillInBlank}
    ensures a.question.kind == Essay ==> AutoGrade(r, items, a) == Ok(a)
  {
  }

  lemma {:induction false} ItemPoints(items: seq<QuizItem>, item: QuizItem)
    requires ValidItems(items) && item in items
    ensures PointsOf(items, item.question) == item.points
  {
    var init, last := items[..|items| - 1], items[|items| - 1];
    if item != last {
      ItemsInit(items);
      assert item in init && HasQuestion(init, item.question);
      ItemPoints(init, item);
    }
  }

  /** A marked answer keeps its question and text, says whether it is correct, and earns its item's points or
      none; without an item it earns none. */
  lemma MarkedAnswer(r: Ruby, items: seq<QuizItem>, a: Answer)
    requires ValidItems(items) && a.question.kind != Essay && AutoGrade(r, items, a).Ok?
    ensures
      var m := AutoGrade(r, items, a).value;
      && m.question == a.question && m.answer == a.answer && m.isCorrect.Some?
      && CheckAnswer(r, a.question, a.answer) == Ok(m.isCorrect.value)
      && (!m.isCorrect.value ==> m.points == Some(0.0))
      && (m.isCorrect.value ==> forall i | i in items && i.question == a.question.id :: m.points == Some(i.points))
      && ((forall i | i in items :: i.question != a.question.id) ==> m.points == Some(0.0))
  {
    forall i | i in items && i.question == a.question.id
      ensures PointsOf(items, a.question.id) == i.points
    {
      ItemPoints(items, i);
    }
    if forall i | i in items :: i.question != a.question.id {
      NotInQuiz(items, a.question.id);
    }
    hide CheckAnswer, ValidItems, PointsOf;
  }

  /** A submission that returns marks every answer, in place, scores what was awarded, and touches nothing else. */
  lemma SubmissionMarks(r: Ruby, q: QuizState, a: Attempt)
    requires Submission(r, q, a).1
    ensures
      var after := Submission(r, q, a).0;
      && |after.answers| == |a.answers|
      && (forall i | 0 <= i < |a.answers| :: AutoGrade(r, q.items, a.answers[i]) == Ok(after.answers[i]))
      && after.score == Some(Awarded(after.answers))
      && after.percentage == Some(Percentage(Awarded(after.answers), Possible(q)))
      && (after.status == Graded || after.status == Submitted)
  {
    MarkedAll(r, q.items, a.answers, |a.answers|);
    hide AutoGrade, Awarded, Percentage, Marked;
  }

  /** A nil point counts nothing towards the score. */
  lemma AwardedSum(answers: seq<Answer>, a: Answer)
    ensures Awarded([]) == 0.0
    ensures Awarded(answers + [a]) == Awarded(answers) + match a.points case Some(p) => p case None => 0.0
  {
    assert (answers + [a])[..|answers|] == answers;
  }

  /** The percentage is the nearest hundredth, halves up; of no points it is none. */
  lemma PercentageNearest(awarded: real, total: real)
    ensures total <= 0.0 ==> Percentage(awarded, total) == 0
    ensures total > 0.0 ==>
      var p, share := Percentage(awarded, total), awarded / total * 10000.0;
      p as real - 0.5 <= share < p as real + 0.5
  {
  }

  // ----- which edits go through

  lemma {:induction false} TotalLast(items: seq<QuizItem>, item: QuizItem)
    ensures Total([]) == 0.0 && Total(items + [item]) == Total(items) + item.points
  {
    assert (items + [item])[..|items|] == items;
  }

  /** A quiz takes an edit iff the items it leads to are valid: positive points, no question twice. */
  lemma AcceptedIff(items: seq<QuizItem>, e: Edit)
    requires ValidItems(items) && (e.Create? || e.position < |items|)
    ensures
      var edited := match e
        case Create(item) => items + [item]
        case Update(i, item) => items[i := item]
        case Destroy(i) => items[..i] + items[i + 1..];
      && (Accepted(items, e) <==> ValidItems(edited))
      && (Accepted(items, e) ==> Edited(items, e) == edited)
  {
    hide ValidItems;
    match e
    case Create(item) => CreateAcceptedIff(items, item);
    case Update(i, item) => UpdateAcceptedIff(items, i, item);
    case Destroy(i) => DestroyKeepsItems(items, i);
  }

  lemma CreateAcceptedIff(items: seq<QuizItem>, item: QuizItem)
    requires ValidItems(items)
    ensures Accepted(items, Create(item)) <==> ValidItems(items + [item])
  {
    if Accepted(items, Create(item)) {
      CreateKeepsItems(items, item);
    } else if item.points > 0.0 {
      var x :| x in items && x.question == item.question;
      var i :| 0 <= i < |items| && items[i] == x;
      assert (items + [item])[i].question == (items + [item])[|items|].question;
    } else {
      assert (items + [item])[|items|] in items + [item];
    }
  }

  lemma UpdateAcceptedIff(items: seq<QuizItem>, k: nat, item: QuizItem)
    requires ValidItems(items) && k < |items|
    ensures Accepted(items, Update(k, item)) <==> ValidItems(items[k := item])
  {
    var edited := items[k := item];
    if Accepted(items, Update(k, item)) {
      UpdateKeepsItems(items, k, item);
    } else if item.points > 0.0 {
      var rest := Without(items, k);
      var x :| x in rest && x.question == item.question;
      var j :| 0 <= j < |rest| && rest[j] == x;
      var i := if j < k then j else j + 1;
      assert edited[i].question == edited[k].question && (i < k || k < i);
    } else {
      assert edited[k] in edited;
    }
  }

  /** Edits are taken one after the other; a refused one is as if it had not been made. */
  lemma EditsInTurn(q: QuizState, es: seq<Edit>, e: Edit)
    ensures AfterEdits(q, []) == q
    ensures
      var before := AfterEdits(q, es);
      AfterEdits(q, es + [e])
      == if Accepted(before.items, e)
         then QuizState(Edited(before.items, e), Some(Total(Edited(before.items, e))))
         else before
  {
    assert (es + [e])[..|es|] == es;
    hide Accepted, Edited;
  }

  /** A total that was never stored counts as no points. */
  lemma NothingPossible(items: seq<QuizItem>, total: real)
    ensures Possible(QuizState(items, None)) == 0.0 && Possible(QuizState(items, Some(total))) == total
  {
  }
}
