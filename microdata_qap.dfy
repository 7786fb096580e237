/** The QAPage structured data of app/structured-data/MicrodataQAP.tsx: every
    root question of a company's Q&A list becomes a schema.org Question whose
    answers are its own legacy answer followed by its replies, nested or
    flat, each reply id counted once. */
module MicrodataQap {
  import opened Js

  /** A question or reply as the API returns it. Absent strings are "" (both
      are falsy); `answerText` keeps null apart from "" because `??` tells them
      apart. */
  datatype Question = Question(
    id: int,
    isReply: bool,
    parentId: Option<int>,
    questionText: string,
    answerText: Option<string>,
    answeredAt: string,
    createdAt: string,
    helpfulCount: JsNum,
    notHelpfulCount: JsNum,
    answerAuthor: string,
    mfoName: string,
    authorName: string,
    replies: seq<Question>)

  datatype AuthorType = Person | Organization

  datatype Answer = Answer(
    text: string,
    dateCreated: string,
    upvoteCount: JsNum,
    downvoteCount: JsNum,
    authorType: AuthorType,
    authorName: string)

  datatype QuestionSchema = QuestionSchema(
    name: string,
    text: string,
    authorName: string,
    dateCreated: string,
    upvoteCount: JsNum,
    downvoteCount: JsNum,
    answerCount: nat,
    acceptedAnswer: Option<Answer>,
    suggestedAnswer: Option<seq<Answer>>)

  /** The answer stored on the question itself, when `answer_text` is truthy. */
  function RootAnswer(q: Question): (r: seq<Answer>)
    ensures |r| <= 1
    ensures |r| == 1 <==> q.answerText.Some? && q.answerText.value != ""
    ensures |r| == 1 ==> r[0].text == q.answerText.value
    ensures |r| == 1 ==> (r[0].authorType == Organization <==> q.answerAuthor != "" || q.mfoName != "")
    ensures |r| == 1 && q.answerAuthor == "" && q.mfoName == "" ==> r[0].authorName == "MFoxa"
    ensures |r| == 1 ==> r[0].upvoteCount != Absent && r[0].downvoteCount != Absent
  {
    if q.answerText.Some? && q.answerText.value != "" then
      [Answer(
        q.answerText.value,
        StrOr(q.answeredAt, q.createdAt),
        NumberOrZero(q.helpfulCount),
        NumberOrZero(q.notHelpfulCount),
        if q.answerAuthor != "" || q.mfoName != "" then Organization else Person,
        StrOr(q.answerAuthor, StrOr(q.mfoName, "MFoxa")))]
    else []
  }

  /** `reply.answer_text ?? reply.question_text`. */
  function ReplyText(reply: Question): string
  {
    match reply.answerText
    case Some(t) => t
    case None => reply.questionText
  }

  function ReplyAnswer(reply: Question): (a: Answer)
    ensures a.text == ReplyText(reply) && a.authorType == Person
    ensures a.authorName != ""
  {
    Answer(
      ReplyText(reply),
      StrOr(reply.answeredAt, reply.createdAt),
      NumberOrZero(reply.helpfulCount),
      NumberOrZero(reply.notHelpfulCount),
      Person,
      StrOr(reply.authorName, "Аноним"))
  }

  predicate HasId(cands: seq<Question>, id: int) {
    exists c :: c in cands && c.id == id
  }

  /** A flat list item that is a reply to `q`. */
  predicate IsFlatReplyTo(item: Question, q: Question) {
    item.isReply && item.parentId == Some(q.id)
  }

  /** The reply candidates after the first `|items|` flat items were looked
      at: a flat reply to `q` is appended unless a candidate already has its
      id. */
  function Candidates(q: Question, items: seq<Question>): seq<Question>
  {
    if items == [] then q.replies
    else
      var prev := Candidates(q, items[..|items| - 1]);
      var item := items[|items| - 1];
      if IsFlatReplyTo(item, q) && !HasId(prev, item.id) then prev + [item] else prev
  }

  /** The state of the answer loop: the reply ids seen and the answers. */
  datatype AnswerState = AnswerState(seen: set<int>, answers: seq<Answer>)

  function AnswerStep(st: AnswerState, reply: Question): AnswerState
  {
    if reply.id in st.seen || ReplyText(reply) == "" then st
    else AnswerState(st.seen + {reply.id}, st.answers + [ReplyAnswer(reply)])
  }

  function ReplyAnswers(start: seq<Answer>, cands: seq<Question>): AnswerState
  {
    if cands == [] then AnswerState({}, start)
    else AnswerStep(ReplyAnswers(start, cands[..|cands| - 1]), cands[|cands| - 1])
  }

  /** All answers of root question `q` within the list `questions`. */
  function Answers(q: Question, questions: seq<Question>): seq<Answer>
  {
    ReplyAnswers(RootAnswer(q), Candidates(q, questions)).answers
  }

  function Schema(q: Question, answers: seq<Answer>): (s: QuestionSchema)
    ensures s.answerCount == |answers|
    ensures s.acceptedAnswer.Some? <==> |answers| >= 1
    ensures |answers| >= 1 ==> s.acceptedAnswer.value == answers[0]
    ensures s.suggestedAnswer.Some? <==> |answers| > 1
    ensures |answers| > 1 ==> s.suggestedAnswer.value == answers[1..]
    ensures s.name == q.questionText && s.text == q.questionText
    ensures s.upvoteCount == NumberOrZero(q.helpfulCount) && s.downvoteCount == NumberOrZero(q.notHelpfulCount)
  {
    QuestionSchema(
      q.questionText,
      q.questionText,
      StrOr(q.authorName, "Аноним"),
      q.createdAt,
      NumberOrZero(q.helpfulCount),
      NumberOrZero(q.notHelpfulCount),
      |answers|,
      if |answers| >= 1 then Some(answers[0]) else None,
      if |answers| > 1 then Some(answers[1..]) else None)
  }

  function QuestionSchemaOf(q: Question, questions: seq<Question>): QuestionSchema
  {
    Schema(q, Answers(q, questions))
  }

  /** The root questions, in input order. */
  /** A question that is not a flat reply. */
  predicate IsRoot(q: Question) {
    !q.isReply
  }

  /** The root questions, kept in input order (see `RootsInOrder`). */
  function Roots(questions: seq<Question>): (r: seq<Question>)
    ensures forall i :: 0 <= i < |r| ==> !r[i].isReply && r[i] in questions
    ensures forall q :: q in questions && !q.isReply ==> q in r
  {
    if questions == [] then []
    else
      var init := questions[..|questions| - 1];
      var last := questions[|questions| - 1];
      assert questions == init + [last];
      Roots(init) + (if last.isReply then [] else [last])
  }

  function Schemas(roots: seq<Question>, questions: seq<Question>): (r: seq<QuestionSchema>)
    ensures |r| == |roots|
    ensures forall k :: 0 <= k < |roots| ==> r[k] == QuestionSchemaOf(roots[k], questions)
  {
    seq(|roots|, k requires 0 <= k < |roots| => QuestionSchemaOf(roots[k], questions))
  }

  lemma RootsSnoc(questions: seq<Question>, q: Question)
    ensures Roots(questions + [q]) == Roots(questions) + (if q.isReply then [] else [q])
  {
    assert (questions + [q])[..|questions|] == questions;
  }

  /** The roots are exactly `questions.filter(q => !q.isReply)`: input
      order and repetitions are kept. */
  lemma {:induction false} RootsInOrder(questions: seq<Question>)
    ensures Roots(questions) == Filter(questions, IsRoot)
  {
    if questions != [] {
      var init := questions[..|questions| - 1];
      var last := questions[|questions| - 1];
      assert questions == init + [last];
      RootsInOrder(init);
      FilterAppend(init, [last], IsRoot);
      assert [last][1..] == [];
    }
  }

  lemma SchemasSnoc(roots: seq<Question>, q: Question, questions: seq<Question>)
    ensures Schemas(roots + [q], questions) == Schemas(roots, questions) + [QuestionSchemaOf(q, questions)]
  {
  }

  /** `mainEntity` of the QAPage, or null when there are no questions. */
  function MainEntity(questions: seq<Question>): Option<seq<QuestionSchema>>
  {
    if questions == [] then None else Some(Schemas(Roots(questions), questions))
  }

  /** Steps 2 and 3 of the per-question loop: the nested replies, then the
      flat replies to `q` whose id is not yet a candidate. */
  method CollectCandidates(q: Question, questions: seq<Question>) returns (cands: seq<Question>)
    ensures cands == Candidates(q, questions)
  {
    cands := q.replies;
    for i := 0 to |questions|
      invariant cands == Candidates(q, questions[..i])
    {
      assert questions[..i + 1][..i] == questions[..i];
      var item := questions[i];
      if item.isReply && item.parentId == Some(q.id) {
        if !(exists r :: r in cands && r.id == item.id) {
          cands := cands + [item];
        }
      }
    }
    assert questions[..|questions|] == questions;
  }

  /** Step 1 and the dedup loop: the legacy answer, then one answer per
      reply id whose text is truthy. */
  method CollectAnswers(q: Question, cands: seq<Question>) returns (answers: seq<Answer>)
    ensures answers == ReplyAnswers(RootAnswer(q), cands).answers
  {
    answers := [];
    if q.answerText.Some? && q.answerText.value != "" {
      answers := answers + [Answer(
        q.answerText.value,
        StrOr(q.answeredAt, q.createdAt),
        NumberOrZero(q.helpfulCount),
        NumberOrZero(q.notHelpfulCount),
        if q.answerAuthor != "" || q.mfoName != "" then Organization else Person,
        StrOr(q.answerAuthor, StrOr(q.mfoName, "MFoxa")))];
    }
    var seenReplyIds: set<int> := {};
    for i := 0 to |cands|
      invariant AnswerState(seenReplyIds, answers) == ReplyAnswers(RootAnswer(q), cands[..i])
    {
      assert cands[..i + 1][..i] == cands[..i];
      var reply := cands[i];
      if reply.id in seenReplyIds {
        continue;
      }
      var answerText := match reply.answerText case Some(t) => t case None => reply.questionText;
      if answerText == "" {
        continue;
      }
      seenReplyIds := seenReplyIds + {reply.id};
      answers := answers + [Answer(
        answerText,
        StrOr(reply.answeredAt, reply.createdAt),
        NumberOrZero(reply.helpfulCount),
        NumberOrZero(reply.notHelpfulCount),
        Person,
        StrOr(reply.authorName, "Аноним"))];
    }
    assert cands[..|cands|] == cands;
  }

  /** The body of the per-question loop for a root question. */
  method BuildSchema(q: Question, questions: seq<Question>) returns (schema: QuestionSchema)
    ensures schema == QuestionSchemaOf(q, questions)
  {
    var cands := CollectCandidates(q, questions);
    var answers := CollectAnswers(q, cands);
    schema := Schema(q, answers);
  }

  /** The whole component: null for an empty list, else one schema per root
      question. */
  method MicrodataQap(questions: seq<Question>) returns (mainEntity: Option<seq<QuestionSchema>>)
    ensures mainEntity == MainEntity(questions)
  {
    if |questions| == 0 {
      return None;
    }
    var entities: seq<QuestionSchema> := [];
    for i := 0 to |questions|
      invariant entities == Schemas(Roots(questions[..i]), questions)
    {
      var q := questions[i];
      var before := Roots(questions[..i]);
      RootsSnoc(questions[..i], q);
      assert questions[..i + 1] == questions[..i] + [q];
      if !q.isReply {
        assert Roots(questions[..i + 1]) == before + [q];
        var schema := BuildSchema(q, questions);
        SchemasSnoc(before, q, questions);
        entities := entities + [schema];
      } else {
        assert Roots(questions[..i + 1]) == before;
      }
    }
    assert questions[..|questions|] == questions;
    mainEntity := Some(entities);
  }

  /** The QAPage is null exactly for an empty list; otherwise it has one
      entry per question that is not a flat reply, in input order, named
      after that question and counting its own answer plus its distinct
      answered replies. */
  lemma MainEntityShape(questions: seq<Question>)
    ensures MainEntity(questions).None? <==> questions == []
    ensures questions != [] ==>
      var roots := Filter(questions, IsRoot);
      && |MainEntity(questions).value| == |roots|
      && forall k :: 0 <= k < |roots| ==>
           && MainEntity(questions).value[k].name == roots[k].questionText
           && MainEntity(questions).value[k].answerCount
                == |RootAnswer(roots[k])| + |AnsweredIds(Candidates(roots[k], questions))|
  {
    if questions != [] {
      var roots := Roots(questions);
      RootsInOrder(questions);
      forall k | 0 <= k < |roots|
        ensures MainEntity(questions).value[k].answerCount
                == |RootAnswer(roots[k])| + |AnsweredIds(Candidates(roots[k], questions))|
      {
        QuestionSchemaSpec(roots[k], questions);
      }
    }
  }

  /** The candidates start with the nested replies; every later one is a flat
      reply to `q` with an id no earlier candidate has; and every flat reply
      to `q` has its id among the candidates. */
  lemma {:induction false} CandidatesSpec(q: Question, items: seq<Question>)
    ensures var c := Candidates(q, items);
      && |q.replies| <= |c| && c[..|q.replies|] == q.replies
      && (forall k :: |q.replies| <= k < |c| ==> IsFlatReplyTo(c[k], q) && c[k] in items)
      && (forall k, j :: |q.replies| <= k < |c| && 0 <= j < k ==> c[j].id != c[k].id)
      && (forall item :: item in items && IsFlatReplyTo(item, q) ==> HasId(c, item.id))
  {
    if items != [] {
      var init := items[..|items| - 1];
      var item := items[|items| - 1];
      CandidatesSpec(q, init);
      var prev := Candidates(q, init);
      var c := Candidates(q, items);
      if IsFlatReplyTo(item, q) && !HasId(prev, item.id) {
        assert c == prev + [item];
        assert c[..|q.replies|] == prev[..|q.replies|];
        forall k, j | |q.replies| <= k < |c| && 0 <= j < k ensures c[j].id != c[k].id {
          if k == |c| - 1 {
            assert c[j] == prev[j] && prev[j] in prev;
          }
        }
        forall x | x in items && IsFlatReplyTo(x, q) ensures HasId(c, x.id) {
          if x in init {
            var w :| w in prev && w.id == x.id;
            assert w in c;
          } else {
            assert c[|c| - 1] == x;
          }
        }
      } else {
        assert c == prev;
        forall x | x in items && IsFlatReplyTo(x, q) ensures HasId(c, x.id) {
          if x !in init {
            assert x == item;
          }
        }
      }
      forall k | |q.replies| <= k < |c| ensures c[k] in items {
        if k < |prev| {
          assert c[k] == prev[k];
        }
      }
    }
  }

  /** The set of reply ids that have a truthy answer text. */
  function AnsweredIds(cands: seq<Question>): set<int>
  {
    set c | c in cands && ReplyText(c) != "" :: c.id
  }

  lemma AnsweredIdsSnoc(cands: seq<Question>, reply: Question)
    ensures AnsweredIds(cands + [reply]) == AnsweredIds(cands) + (if ReplyText(reply) != "" then {reply.id} else {})
  {
    var all := cands + [reply];
    forall id | id in AnsweredIds(all)
      ensures id in AnsweredIds(cands) + (if ReplyText(reply) != "" then {reply.id} else {})
    {
      var c :| c in all && ReplyText(c) != "" && c.id == id;
      if c != reply {
        assert c in cands;
      }
    }
    assert reply in all;
    forall c | c in cands ensures c in all {}
  }

  /** The answer loop adds exactly one answer per reply id that some
      candidate carries with a truthy text; a falsy reply is skipped without
      marking its id, so a later reply with the same id still counts. */
  lemma {:induction false} ReplyAnswersCount(start: seq<Answer>, cands: seq<Question>)
    ensures ReplyAnswers(start, cands).seen == AnsweredIds(cands)
    ensures |ReplyAnswers(start, cands).answers| == |start| + |AnsweredIds(cands)|
  {
    if cands != [] {
      var init := cands[..|cands| - 1];
      var reply := cands[|cands| - 1];
      assert cands == init + [reply];
      ReplyAnswersCount(start, init);
      AnsweredIdsSnoc(init, reply);
      var prev := ReplyAnswers(start, init);
      if !(reply.id in prev.seen || ReplyText(reply) == "") {
        assert |prev.seen + {reply.id}| == |prev.seen| + 1;
      }
    }
  }

  /** `a` is the answer built from some candidate with a truthy text. */
  predicate BuiltFrom(a: Answer, cands: seq<Question>) {
    exists c :: c in cands && ReplyText(c) != "" && a == ReplyAnswer(c)
  }

  lemma BuiltFromPrefix(a: Answer, init: seq<Question>, reply: Question)
    requires BuiltFrom(a, init)
    ensures BuiltFrom(a, init + [reply])
  {
    var c :| c in init && ReplyText(c) != "" && a == ReplyAnswer(c);
    assert c in init + [reply];
  }

  /** The answers the loop starts with stay in front, and every answer it
      adds is built from a candidate with a truthy text. */
  lemma {:induction false} ReplyAnswersFrom(start: seq<Answer>, cands: seq<Question>)
    ensures var st := ReplyAnswers(start, cands);
      && |start| <= |st.answers| && st.answers[..|start|] == start
      && forall k :: |start| <= k < |st.answers| ==> BuiltFrom(st.answers[k], cands)
  {
    if cands != [] {
      var init := cands[..|cands| - 1];
      var reply := cands[|cands| - 1];
      assert cands == init + [reply];
      ReplyAnswersFrom(start, init);
      var prev := ReplyAnswers(start, init);
      var st := ReplyAnswers(start, cands);
      assert st == AnswerStep(prev, reply);
      forall k | |start| <= k < |prev.answers|
        ensures BuiltFrom(prev.answers[k], cands)
      {
        BuiltFromPrefix(prev.answers[k], init, reply);
      }
      if reply.id in prev.seen || ReplyText(reply) == "" {
        assert st == prev;
      } else {
        assert st.answers == prev.answers + [ReplyAnswer(reply)];
        assert st.answers[..|start|] == prev.answers[..|start|];
        assert BuiltFrom(st.answers[|prev.answers|], cands) by {
          assert reply in cands;
        }
        forall k | |start| <= k < |st.answers|
          ensures BuiltFrom(st.answers[k], cands)
        {
          if k < |prev.answers| {
            assert st.answers[k] == prev.answers[k];
          }
        }
      }
    }
  }

  /** A question's schema: its legacy answer, when truthy, is the accepted
      one; the answer count is that answer plus one per answered reply id. */
  lemma QuestionSchemaSpec(q: Question, questions: seq<Question>)
    ensures var s := QuestionSchemaOf(q, questions);
      && s.answerCount == |RootAnswer(q)| + |AnsweredIds(Candidates(q, questions))|
      && (q.answerText.Some? && q.answerText.value != "" ==> s.acceptedAnswer == Some(RootAnswer(q)[0]))
  {
    ReplyAnswersCount(RootAnswer(q), Candidates(q, questions));
    ReplyAnswersFrom(RootAnswer(q), Candidates(q, questions));
    var answers := Answers(q, questions);
    if q.answerText.Some? && q.answerText.value != "" {
      assert answers[..1] == RootAnswer(q);
      assert answers[0] == answers[..1][0];
    }
  }
}
