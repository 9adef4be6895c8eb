/** The review-and-submit half of the bulk-add page
    (src/app/admin/questions/bulk-add/page.tsx): choosing the correct option of
    a parsed question, the validation that runs before anything is created, and
    the `createQuestion` calls a valid submission makes. */
module BulkReview {
  import opened Types
  import opened Text
  import opened BulkParser
  import opened QuestionService

  // ---------------------------------------------------------------------
  // Choosing the correct option

  /** The options with exactly the one at `k` flagged correct. */
  function MarkOnly(os: seq<AnswerOption>, k: nat): (r: seq<AnswerOption>)
    requires k < |os|
    ensures |r| == |os|
    ensures forall j :: 0 <= j < |os| ==> r[j].id == os[j].id && r[j].text == os[j].text
    ensures forall j :: 0 <= j < |os| ==> (r[j].isCorrect <==> j == k)
  {
    seq(|os|, j requires 0 <= j < |os| => os[j].(isCorrect := j == k))
  }

  /** Options in which exactly the one at `k` is correct have a correct count of one. */
  lemma {:induction false} SingleFlagCountsOne(os: seq<AnswerOption>, k: nat)
    requires k < |os|
    requires forall j :: 0 <= j < |os| ==> (os[j].isCorrect <==> j == k)
    ensures CorrectCount(os) == 1
  {
    var init := os[..|os| - 1];
    if k == |os| - 1 {
      assert forall j :: 0 <= j < |init| ==> !init[j].isCorrect;
    } else {
      assert forall j :: 0 <= j < |init| ==> (init[j].isCorrect <==> j == k);
      SingleFlagCountsOne(init, k);
    }
  }

  /** After `setCorrectOption` the question has exactly one correct option,
      the one chosen. */
  lemma MarkOnlyHasOneCorrect(os: seq<AnswerOption>, k: nat)
    requires k < |os|
    ensures CorrectCount(MarkOnly(os, k)) == 1
    ensures MarkOnly(os, k)[k].isCorrect
  {
    SingleFlagCountsOne(MarkOnly(os, k), k);
  }

  // ---------------------------------------------------------------------
  // Validation before submission

  /** Why a submission is refused; `number` is the 1-based question number. */
  datatype SubmitError = NoTopic | NoOptions(number: nat) | NotExactlyOneCorrect(number: nat)

  /** The message the page shows. */
  function Message(e: SubmitError): string
  {
    match e
    case NoTopic => "Please select a topic"
    case NoOptions(n) => "Question " + NatToString(n) + " must have at least one option"
    case NotExactlyOneCorrect(n) => "Question " + NatToString(n) + " must have exactly one correct answer"
  }

  /** A question the submit loop lets through. */
  predicate Acceptable(q: ParsedQuestion)
  {
    |q.options| > 0 && CorrectCount(q.options) == 1
  }

  /** The first refusal among questions `i..`, numbered from 1. */
  function FirstProblem(qs: seq<ParsedQuestion>, i: nat): (r: Option<SubmitError>)
    requires i <= |qs|
    decreases |qs| - i
    ensures r.None? <==> forall j :: i <= j < |qs| ==> Acceptable(qs[j])
    ensures r.Some? ==> !r.value.NoTopic?
    ensures r.Some? ==> i < r.value.number <= |qs|
                        && (forall j :: i <= j < r.value.number - 1 ==> Acceptable(qs[j]))
                        && !Acceptable(qs[r.value.number - 1])
                        && (r.value.NoOptions? <==> qs[r.value.number - 1].options == [])
  {
    if i == |qs| then None
    else if |qs[i].options| == 0 then Some(NoOptions(i + 1))
    else if CorrectCount(qs[i].options) != 1 then Some(NotExactlyOneCorrect(i + 1))
    else FirstProblem(qs, i + 1)
  }

  /** The whole check: the topic first, then the questions in order. */
  function SubmitCheck(topic: string, qs: seq<ParsedQuestion>): (r: Option<SubmitError>)
    ensures r.None? <==> topic != "" && forall j :: 0 <= j < |qs| ==> Acceptable(qs[j])
    ensures r == Some(NoTopic) <==> topic == ""
  {
    if topic == "" then Some(NoTopic) else FirstProblem(qs, 0)
  }

  /** The validation part of `handleSubmit`: an indexed loop that returns at
      the first question without options or without exactly one correct option. */
  method CheckSubmission(topic: string, qs: seq<ParsedQuestion>) returns (r: Option<SubmitError>)
    ensures r == SubmitCheck(topic, qs)
  {
    if topic == "" {
      return Some(NoTopic);
    }
    var i := 0;
    while i < |qs|
      invariant i <= |qs|
      invariant FirstProblem(qs, i) == FirstProblem(qs, 0)
    {
      if |qs[i].options| == 0 {
        return Some(NoOptions(i + 1));
      }
      var correct := CorrectCount(qs[i].options);
      if correct != 1 {
        return Some(NotExactlyOneCorrect(i + 1));
      }
      i := i + 1;
    }
    return None;
  }

  /** Choosing a correct option repairs a question that has options. */
  lemma MarkingMakesAcceptable(q: ParsedQuestion, k: nat)
    requires k < |q.options|
    ensures Acceptable(q.(options := MarkOnly(q.options, k)))
  {
    MarkOnlyHasOneCorrect(q.options, k);
  }

  // ---------------------------------------------------------------------
  // The calls a valid submission makes

  /** The argument of the `createQuestion` call for one parsed question. */
  function SubmitDraft(topic: string, difficulty: Difficulty, q: ParsedQuestion,
                       stringify: seq<AnswerOption> -> string): Question
  {
    Question(None, topic, q.text, Stored(stringify(q.options)), None, difficulty,
             Some(if q.explanation.Some? then q.explanation.value else ""))
  }

  /** Ids "1".."n" in order, as the parser assigns them. */
  ghost predicate NumberedIds(os: seq<AnswerOption>)
  {
    forall j :: 0 <= j < |os| ==> os[j].id == NatToString(j + 1)
  }

  /** A submitted question is stored under the chosen topic and, once loaded
      back, has exactly the options it was submitted with. */
  lemma SubmittedQuestionReloads(topic: string, difficulty: Difficulty, q: ParsedQuestion,
                                 parse: string -> Parsed, stringify: seq<AnswerOption> -> string, id: string)
    requires RoundTrips(parse, stringify)
    requires topic != "" && NumberedIds(q.options)
    ensures CreateQuestion(SubmitDraft(topic, difficulty, q, stringify), parse, stringify, Some(id)).returned
            == Some(SubmitDraft(topic, difficulty, q, stringify).(id := Some(id), parsedOptions := Some(q.options)))
  {
    CreatedFromStringKeepsOptions(SubmitDraft(topic, difficulty, q, stringify), parse, stringify, id, q.options);
    forall j | 0 <= j < |q.options| ensures NormaliseIds(q.options)[j] == q.options[j] {
      NumeralIsNotLegacy(j + 1);
    }
    assert NormaliseIds(q.options) == q.options;
  }

  // ---------------------------------------------------------------------
  // The page state

  /** The state of the bulk-add page that the review and submit handlers
      update. */
  class BulkAddPage {
    var bulkText: string
    var questions: seq<ParsedQuestion>
    var previewMode: bool
    var error: Option<SubmitError>
    var success: bool

    constructor ()
      ensures bulkText == "" && questions == [] && !previewMode && error == None && !success
    {
      bulkText := "";
      questions := [];
      previewMode := false;
      error := None;
      success := false;
    }

    /** `handleParsePreview`. */
    method ParsePreview()
      modifies this`questions, this`previewMode
      ensures questions == ParsedQuestions(bulkText) && previewMode
    {
      var parsed := ParseQuestions(bulkText);
      questions, previewMode := parsed, true;
    }

    /** `setCorrectOption`: every flag of question `qi` is cleared, then the
        one of option `oi` is set; nothing else changes. */
    method SetCorrectOption(qi: nat, oi: nat)
      requires qi < |questions| && oi < |questions[qi].options|
      modifies this
      ensures questions == old(questions)[qi := old(questions)[qi].(options := MarkOnly(old(questions)[qi].options, oi))]
      ensures bulkText == old(bulkText) && previewMode == old(previewMode)
      ensures error == old(error) && success == old(success)
    {
      var os := questions[qi].options;
      var j := 0;
      while j < |os|
        invariant j <= |os| == |questions[qi].options|
        invariant forall k :: 0 <= k < j ==> os[k] == questions[qi].options[k].(isCorrect := false)
        invariant forall k :: j <= k < |os| ==> os[k] == questions[qi].options[k]
      {
        os := os[j := os[j].(isCorrect := false)];
        j := j + 1;
      }
      os := os[oi := os[oi].(isCorrect := true)];
      assert os == MarkOnly(questions[qi].options, oi);
      questions := questions[qi := questions[qi].(options := os)];
    }

    /** `handleSubmit`: a refused submission records the error and makes no
        call; an accepted one calls `createQuestion` once per question, in
        order, and clears the page. `createQuestion` reports its failures by
        returning `null`, so the loop always runs to the end. */
    method Submit(topic: string, difficulty: Difficulty, stringify: seq<AnswerOption> -> string)
      returns (calls: seq<Question>)
      modifies this
      ensures SubmitCheck(topic, old(questions)).Some? ==>
                calls == [] && error == SubmitCheck(topic, old(questions))
                && questions == old(questions) && bulkText == old(bulkText)
                && previewMode == old(previewMode) && success == old(success)
      ensures SubmitCheck(topic, old(questions)).None? ==>
                |calls| == |old(questions)|
                && (forall j :: 0 <= j < |calls| ==> calls[j] == SubmitDraft(topic, difficulty, old(questions)[j], stringify))
                && error == None && success && questions == [] && bulkText == "" && !previewMode
    {
      var problem := CheckSubmission(topic, questions);
      if problem.Some? {
        error := problem;
        return [];
      }
      error := None;
      success := false;
      calls := [];
      var k := 0;
      while k < |questions|
        invariant k <= |questions| && |calls| == k
        invariant forall j :: 0 <= j < k ==> calls[j] == SubmitDraft(topic, difficulty, questions[j], stringify)
      {
        calls := calls + [SubmitDraft(topic, difficulty, questions[k], stringify)];
        k := k + 1;
      }
      success := true;
      bulkText := "";
      questions := [];
      previewMode := false;
    }
  }
}
