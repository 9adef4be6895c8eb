/** The test page (src/app/test/page.tsx): option parsing, question
    selection and enrichment when a test starts, scoring, the progress
    reports sent on submission, and navigation between questions. The topic
    list arrives already shuffled (the shuffle is taken as the identity). */
module TestFlow {
  import opened Types
  import opened Text
  import opened QuestionService
  import opened Distractors
  import opened Progress

  /** What the page's `parseOptions` yields: an option array, or some other
      value that the code after it cannot use. */
  datatype ParsedField = OptionList(items: seq<AnswerOption>) | NotAList

  /** `parseOptions`: a string is parsed, then an array gets the legacy-id
      rewrite; a syntax error yields `[]`; any other value is returned as it
      is, which here means "not a list". */
  function ParseOptions(f: OptionsField, parse: string -> Parsed): (r: ParsedField)
    ensures f.InMemory? ==> r == OptionList(NormaliseIds(f.list))
    ensures f.NullValue? || f.Missing? ==> r == NotAList
  {
    match f
    case Stored(json) =>
      (match parse(json)
       case ParsedList(items) => OptionList(NormaliseIds(items))
       case ParsedOther => NotAList
       case ParseFailure => OptionList([]))
    case InMemory(list) => OptionList(NormaliseIds(list))
    case NullValue => NotAList
    case Missing => NotAList
  }

  /** For a stored non-empty string the page and the service agree, except on
      JSON that is not an array: the service then stores `[]`, the page keeps
      the value. */
  lemma ParseOptionsAgreesWithService(q: Question, parse: string -> Parsed)
    requires q.options.Stored? && q.options.json != ""
    ensures ParseOptions(q.options, parse).OptionList? <==> !parse(q.options.json).ParsedOther?
    ensures ParseOptions(q.options, parse).OptionList? ==>
              ParseQuestionOptions(q, parse).parsedOptions == Some(ParseOptions(q.options, parse).items)
  {
  }

  // ---------------------------------------------------------------------
  // Enrichment

  /** A question other than the current one that has options to lend: a
      non-empty `parsedOptions`, or an options string other than "[]". A
      question without an id is always "other". */
  predicate Lender(q: Question, currentId: string)
  {
    q.id != Some(currentId)
    && ((q.parsedOptions.Some? && |q.parsedOptions.value| > 0) || (q.options.Stored? && q.options.json != "[]"))
  }

  /** The `filter` building the pool, in the order of `all`. */
  function TestPool(all: seq<Question>, currentId: string): (pool: seq<Question>)
    ensures |pool| <= |all|
    ensures forall q :: q in pool <==> q in all && Lender(q, currentId)
  {
    if all == [] then []
    else TestPool(all[..|all| - 1], currentId) + (if Lender(all[|all| - 1], currentId) then [all[|all| - 1]] else [])
  }

  /** `q.parsedOptions || parseOptions(q.options)`; a value that is not a
      list has no `length` and is skipped like an empty list. */
  function LenderOptions(q: Question, parse: string -> Parsed): seq<AnswerOption>
  {
    if q.parsedOptions.Some? then q.parsedOptions.value
    else match ParseOptions(q.options, parse)
         case OptionList(os) => os
         case NotAList => []
  }

  function LenderLists(pool: seq<Question>, parse: string -> Parsed): (lists: seq<seq<AnswerOption>>)
    ensures |lists| == |pool|
  {
    seq(|pool|, i requires 0 <= i < |pool| => LenderOptions(pool[i], parse))
  }

  /** The test page's `enrichOptionsWithAdditionalChoices`. */
  method EnrichOptions(current: seq<AnswerOption>, currentId: string, all: seq<Question>, parse: string -> Parsed)
    returns (r: seq<AnswerOption>)
    ensures r == Enrich(current, LenderLists(TestPool(all, currentId), parse))
  {
    var pool := TestPool(all, currentId);
    if |pool| == 0 {
      return current;
    }
    var additional := CollectDistractors(LenderLists(pool, parse));
    BorrowedOptions(LenderLists(pool, parse));
    r := current + Take(additional, MaxAdditional);
  }

  // ---------------------------------------------------------------------
  // Starting a test

  datatype StartError = NoTopicSelected | NoQuestionsAvailable | StartFailed

  function StartMessage(e: StartError): string
  {
    match e
    case NoTopicSelected => "Please select a topic"
    case NoQuestionsAvailable => "No questions available for the selected topic"
    case StartFailed => "Failed to start test. Please try again."
  }

  /** `question.$id || ''`. */
  function IdOrEmpty(q: Question): string
  {
    if q.id.Some? then q.id.value else ""
  }

  /** One question of a new test, or `None` when its options are not a list:
      reading `length` of `null` or spreading a non-array object throws, and
      the whole start fails. A stored string that parses to a JSON string is
      treated the same way, although the page spreads such a string into its
      characters without throwing. A single option is enriched; the others
      are kept (their shuffle is the identity). */
  function PrepareQuestion(q: Question, all: seq<Question>, parse: string -> Parsed): Option<Question>
  {
    match ParseOptions(q.options, parse)
    case NotAList => None
    case OptionList(os) =>
      Some(q.(parsedOptions := Some(if |os| == 1 then Enrich(os, LenderLists(TestPool(all, IdOrEmpty(q)), parse)) else os)))
  }

  method PrepareTestQuestion(q: Question, all: seq<Question>, parse: string -> Parsed) returns (r: Option<Question>)
    ensures r == PrepareQuestion(q, all, parse)
  {
    var parsed := ParseOptions(q.options, parse);
    if parsed.NotAList? {
      return None;
    }
    var os := parsed.items;
    if |os| == 1 {
      os := EnrichOptions(os, IdOrEmpty(q), all, parse);
    }
    r := Some(q.(parsedOptions := Some(os)));
  }

  predicate AllListed(selected: seq<Question>, parse: string -> Parsed)
  {
    forall i :: 0 <= i < |selected| ==> ParseOptions(selected[i].options, parse).OptionList?
  }

  /** What `startTest` leaves in the page: an error, or the test questions. */
  function StartSpec(topic: string, numQuestions: nat, topicQuestions: seq<Question>, all: seq<Question>,
                     parse: string -> Parsed): Result<seq<Question>, StartError>
  {
    if topic == "" then Err(NoTopicSelected)
    else
      var selected := topicQuestions[..Min(numQuestions, |topicQuestions|)];
      if selected == [] then Err(NoQuestionsAvailable)
      else if !AllListed(selected, parse) then Err(StartFailed)
      else Ok(seq(|selected|, i requires 0 <= i < |selected| => PrepareQuestion(selected[i], all, parse).value))
  }

  /** `startTest`: the first `min(numQuestions, available)` questions of the
      topic, each prepared in turn; the first one whose options are not a
      list aborts the start. */
  method StartTest(topic: string, numQuestions: nat, topicQuestions: seq<Question>, all: seq<Question>,
                   parse: string -> Parsed) returns (r: Result<seq<Question>, StartError>)
    ensures r == StartSpec(topic, numQuestions, topicQuestions, all, parse)
  {
    if topic == "" {
      return Err(NoTopicSelected);
    }
    var selected := topicQuestions[..Min(numQuestions, |topicQuestions|)];
    if |selected| == 0 {
      return Err(NoQuestionsAvailable);
    }
    var prepared: seq<Question> := [];
    var i := 0;
    while i < |selected|
      invariant i <= |selected| && |prepared| == i
      invariant forall j :: 0 <= j < i ==> ParseOptions(selected[j].options, parse).OptionList?
      invariant forall j :: 0 <= j < i ==> PrepareQuestion(selected[j], all, parse) == Some(prepared[j])
    {
      var p := PrepareTestQuestion(selected[i], all, parse);
      if p.None? {
        return Err(StartFailed);
      }
      prepared := prepared + [p.value];
      i := i + 1;
    }
    assert AllListed(selected, parse);
    assert prepared == seq(|selected|, i requires 0 <= i < |selected| => PrepareQuestion(selected[i], all, parse).value);
    return Ok(prepared);
  }

  /** Every question of a started test carries its display options. */
  ghost predicate AllPrepared(qs: seq<Question>)
  {
    forall i :: 0 <= i < |qs| ==> qs[i].parsedOptions.Some?
  }

  /** A started test holds `min(numQuestions, available)` questions, at least
      one; each is its topic question with display options; a question with
      other than one option keeps its options, and a single-option question
      keeps its option first and gains at most three, none of them correct. */
  lemma StartedTest(topic: string, numQuestions: nat, topicQuestions: seq<Question>, all: seq<Question>,
                    parse: string -> Parsed)
    requires StartSpec(topic, numQuestions, topicQuestions, all, parse).Ok?
    ensures var qs := StartSpec(topic, numQuestions, topicQuestions, all, parse).value;
            && |qs| == Min(numQuestions, |topicQuestions|) > 0
            && AllPrepared(qs)
            && forall i :: 0 <= i < |qs| ==>
                 var os := ParseOptions(topicQuestions[i].options, parse).items;
                 && qs[i].(parsedOptions := topicQuestions[i].parsedOptions) == topicQuestions[i]
                 && (|os| != 1 ==> qs[i].parsedOptions.value == os)
                 && (|os| == 1 ==>
                       && qs[i].parsedOptions.value[..1] == os
                       && |qs[i].parsedOptions.value| <= 1 + MaxAdditional
                       && CorrectCount(qs[i].parsedOptions.value) == CorrectCount(os))
  {
    var selected := topicQuestions[..Min(numQuestions, |topicQuestions|)];
    var qs := StartSpec(topic, numQuestions, topicQuestions, all, parse).value;
    forall i | 0 <= i < |qs|
      ensures var os := ParseOptions(topicQuestions[i].options, parse).items;
              && qs[i].(parsedOptions := topicQuestions[i].parsedOptions) == topicQuestions[i]
              && (|os| != 1 ==> qs[i].parsedOptions.value == os)
              && (|os| == 1 ==>
                    && qs[i].parsedOptions.value[..1] == os
                    && |qs[i].parsedOptions.value| <= 1 + MaxAdditional
                    && CorrectCount(qs[i].parsedOptions.value) == CorrectCount(os))
    {
      assert selected[i] == topicQuestions[i];
      assert ParseOptions(selected[i].options, parse).OptionList?;
      var os := ParseOptions(topicQuestions[i].options, parse).items;
      EnrichKeepsCurrent(os, LenderLists(TestPool(all, IdOrEmpty(topicQuestions[i])), parse));
    }
  }

  /** A test cannot start without a topic, and finds no questions exactly when
      the topic has none or none were asked for. */
  lemma StartErrors(topic: string, numQuestions: nat, topicQuestions: seq<Question>, all: seq<Question>,
                    parse: string -> Parsed)
    ensures StartSpec(topic, numQuestions, topicQuestions, all, parse) == Err(NoTopicSelected) <==> topic == ""
    ensures StartSpec(topic, numQuestions, topicQuestions, all, parse) == Err(NoQuestionsAvailable)
            <==> topic != "" && (numQuestions == 0 || topicQuestions == [])
  {
    if topic != "" && numQuestions != 0 && topicQuestions != [] {
      assert |topicQuestions[..Min(numQuestions, |topicQuestions|)]| > 0;
    }
  }

  // ---------------------------------------------------------------------
  // Scoring and progress

  /** `selectedOptions[index]` is present and non-empty. */
  predicate Answered(sel: map<nat, string>, i: nat)
  {
    i in sel && sel[i] != ""
  }

  /** The predicate shared by `calculateScore` and `handleSubmitTest`: the
      selected option exists, is correct, and is not a borrowed one. */
  predicate AnsweredCorrectly(q: Question, sel: map<nat, string>, i: nat)
    requires q.parsedOptions.Some?
  {
    Answered(sel, i)
    && var found := FindById(q.parsedOptions.value, sel[i]);
       found.Some? && found.value.isCorrect && !StartsWith(sel[i], AdditionalPrefix)
  }

  /** The number of the first `n` questions answered correctly. */
  function Score(qs: seq<Question>, sel: map<nat, string>, n: nat): nat
    requires n <= |qs| && AllPrepared(qs)
  {
    if n == 0 then 0 else Score(qs, sel, n - 1) + (if AnsweredCorrectly(qs[n - 1], sel, n - 1) then 1 else 0)
  }

  /** The number of the first `n` questions with a selection. */
  function AnsweredCount(sel: map<nat, string>, n: nat): nat
  {
    if n == 0 then 0 else AnsweredCount(sel, n - 1) + (if Answered(sel, n - 1) then 1 else 0)
  }

  /** score <= answered <= number of questions. */
  lemma {:induction false} ScoreBounds(qs: seq<Question>, sel: map<nat, string>, n: nat)
    requires n <= |qs| && AllPrepared(qs)
    ensures Score(qs, sel, n) <= AnsweredCount(sel, n) <= n
  {
    if n > 0 {
      ScoreBounds(qs, sel, n - 1);
    }
  }

  /** A borrowed option never scores, whatever its flag. */
  lemma BorrowedNeverScores(q: Question, sel: map<nat, string>, i: nat)
    requires q.parsedOptions.Some? && i in sel && StartsWith(sel[i], AdditionalPrefix)
    ensures !AnsweredCorrectly(q, sel, i)
  {
  }

  /** `calculateScore`: the `forEach` that counts correct answers. */
  method CalculateScore(qs: seq<Question>, sel: map<nat, string>) returns (score: nat)
    requires AllPrepared(qs)
    ensures score == Score(qs, sel, |qs|)
  {
    score := 0;
    var i := 0;
    while i < |qs|
      invariant i <= |qs| && score == Score(qs, sel, i)
    {
      if i in sel && sel[i] != "" {
        var found := FindById(qs[i].parsedOptions.value, sel[i]);
        if found.Some? && found.value.isCorrect && !StartsWith(sel[i], AdditionalPrefix) {
          score := score + 1;
        }
      }
      i := i + 1;
    }
  }

  /** One `updateUserProgress` call of `handleSubmitTest`. */
  datatype Report = Report(questionId: string, correct: bool)

  /** The calls for the first `n` questions: one per answered question with a
      non-empty id, in order. */
  function Reports(qs: seq<Question>, sel: map<nat, string>, n: nat): (rs: seq<Report>)
    requires n <= |qs| && AllPrepared(qs)
    ensures |rs| <= n
  {
    if n == 0 then []
    else
      var q := qs[n - 1];
      Reports(qs, sel, n - 1)
      + (if Answered(sel, n - 1) && q.id.Some? && q.id.value != ""
         then [Report(q.id.value, AnsweredCorrectly(q, sel, n - 1))] else [])
  }

  function CorrectReports(rs: seq<Report>): nat
  {
    if rs == [] then 0 else CorrectReports(rs[..|rs| - 1]) + (if rs[|rs| - 1].correct then 1 else 0)
  }

  lemma CorrectReportsAppend(a: seq<Report>, b: seq<Report>)
    ensures CorrectReports(a + b) == CorrectReports(a) + CorrectReports(b)
    decreases |b|
  {
    if b != [] {
      assert (a + b)[..|a + b| - 1] == a + b[..|b| - 1];
      CorrectReportsAppend(a, b[..|b| - 1]);
    } else {
      assert a + b == a;
    }
  }

  /** When every question has an id, progress is recorded as correct for
      exactly as many questions as the score counts. */
  lemma {:induction false} ReportsMatchScore(qs: seq<Question>, sel: map<nat, string>, n: nat)
    requires n <= |qs| && AllPrepared(qs)
    requires forall i :: 0 <= i < |qs| ==> qs[i].id.Some? && qs[i].id.value != ""
    ensures CorrectReports(Reports(qs, sel, n)) == Score(qs, sel, n)
    ensures |Reports(qs, sel, n)| == AnsweredCount(sel, n)
  {
    if n > 0 {
      ReportsMatchScore(qs, sel, n - 1);
      var q := qs[n - 1];
      var ok := AnsweredCorrectly(q, sel, n - 1);
      var tail := if Answered(sel, n - 1) then [Report(q.id.value, ok)] else [];
      assert Reports(qs, sel, n) == Reports(qs, sel, n - 1) + tail;
      assert Score(qs, sel, n) == Score(qs, sel, n - 1) + (if ok then 1 else 0);
      CorrectReportsAppend(Reports(qs, sel, n - 1), tail);
      assert CorrectReports(tail) == (if ok then 1 else 0) by {
        if tail != [] {
          assert tail[..0] == [];
        }
      }
    }
  }

  /** The progress collection after the calls, made in order. */
  function ApplyReports(store: seq<UserProgress>, userId: string, rs: seq<Report>, now: string): seq<UserProgress>
  {
    if rs == [] then store
    else RecordAnswer(ApplyReports(store, userId, rs[..|rs| - 1], now), userId,
                      rs[|rs| - 1].questionId, rs[|rs| - 1].correct, now).0
  }

  /** Recording a test keeps one record per question and keeps every record
      consistent. */
  lemma {:induction false} ApplyReportsKeepsStore(store: seq<UserProgress>, userId: string, rs: seq<Report>, now: string)
    requires OnePerPair(store) && forall i :: 0 <= i < |store| ==> Consistent(store[i])
    ensures OnePerPair(ApplyReports(store, userId, rs, now))
    ensures forall i :: 0 <= i < |ApplyReports(store, userId, rs, now)| ==> Consistent(ApplyReports(store, userId, rs, now)[i])
    decreases |rs|
  {
    if rs != [] {
      ApplyReportsKeepsStore(store, userId, rs[..|rs| - 1], now);
      RecordAnswerKeepsStore(ApplyReports(store, userId, rs[..|rs| - 1], now), userId,
                             rs[|rs| - 1].questionId, rs[|rs| - 1].correct, now);
    }
  }

  lemma ApplyReportsSnoc(store: seq<UserProgress>, userId: string, rs: seq<Report>, r: Report, now: string)
    ensures ApplyReports(store, userId, rs + [r], now)
            == RecordAnswer(ApplyReports(store, userId, rs, now), userId, r.questionId, r.correct, now).0
  {
    assert (rs + [r])[..|rs|] == rs;
  }

  /** The progress loop of `handleSubmitTest`, for a signed-in user. */
  method ReportProgress(qs: seq<Question>, sel: map<nat, string>, userId: string,
                        store: seq<UserProgress>, now: string) returns (after: seq<UserProgress>)
    requires AllPrepared(qs)
    ensures after == ApplyReports(store, userId, Reports(qs, sel, |qs|), now)
  {
    after := store;
    ghost var rs: seq<Report> := [];
    var i := 0;
    while i < |qs|
      invariant i <= |qs| && rs == Reports(qs, sel, i)
      invariant after == ApplyReports(store, userId, rs, now)
    {
      var q := qs[i];
      if i in sel && sel[i] != "" && q.id.Some? && q.id.value != "" {
        var found := FindById(q.parsedOptions.value, sel[i]);
        var correct := found.Some? && found.value.isCorrect && !StartsWith(sel[i], AdditionalPrefix);
        ApplyReportsSnoc(store, userId, rs, Report(q.id.value, correct), now);
        after := RecordAnswer(after, userId, q.id.value, correct, now).0;
        rs := rs + [Report(q.id.value, correct)];
      }
      i := i + 1;
    }
  }

  // ---------------------------------------------------------------------
  // The page state

  /** The state of a test in progress. */
  class TestSession {
    var questions: seq<Question>
    var index: nat
    var selected: map<nat, string>
    var showResults: bool
    var score: nat
    var error: Option<StartError>

    /** The question index stays within the test, and every question carries
        its display options. */
    ghost predicate Valid()
      reads this
    {
      (if questions == [] then index == 0 else index < |questions|) && AllPrepared(questions)
    }

    constructor ()
      ensures Valid() && questions == [] && selected == map[] && !showResults && score == 0 && error == None
    {
      questions := [];
      index := 0;
      selected := map[];
      showResults := false;
      score := 0;
      error := None;
    }

    /** `startTest`: on success the test is reset to its first question. */
    method Start(topic: string, numQuestions: nat, topicQuestions: seq<Question>, all: seq<Question>,
                 parse: string -> Parsed)
      requires Valid()
      modifies this
      ensures Valid()
      ensures var r := StartSpec(topic, numQuestions, topicQuestions, all, parse);
              if r.Err? then error == Some(r.error) && questions == old(questions) && index == old(index)
                             && selected == old(selected) && showResults == old(showResults) && score == old(score)
              else questions == r.value && index == 0 && selected == map[] && !showResults && score == 0 && error == None
    {
      var r := StartTest(topic, numQuestions, topicQuestions, all, parse);
      if r.Err? {
        error := Some(r.error);
        return;
      }
      StartedTest(topic, numQuestions, topicQuestions, all, parse);
      questions := r.value;
      index := 0;
      selected := map[];
      showResults := false;
      score := 0;
      error := None;
    }

    /** `handleOptionSelect` for the current question. */
    method Select(optionId: string)
      requires Valid()
      modifies this
      ensures Valid() && selected == old(selected)[old(index) := optionId]
      ensures questions == old(questions) && index == old(index) && showResults == old(showResults) && score == old(score)
      ensures error == old(error)
    {
      selected := selected[index := optionId];
    }

    /** Previous: `Math.max(0, index - 1)`. */
    method Previous()
      requires Valid()
      modifies this
      ensures Valid() && index == (if old(index) == 0 then 0 else old(index) - 1)
      ensures questions == old(questions) && selected == old(selected) && showResults == old(showResults)
      ensures score == old(score) && error == old(error)
    {
      index := if index == 0 then 0 else index - 1;
    }

    /** Next, offered only while the current question is not the last. */
    method Next()
      requires Valid() && index + 1 < |questions|
      modifies this
      ensures Valid() && index == old(index) + 1
      ensures questions == old(questions) && selected == old(selected) && showResults == old(showResults)
      ensures score == old(score) && error == old(error)
    {
      index := index + 1;
    }

    /** `handleSubmitTest`: the score is shown and, for a signed-in user,
        each answered question is reported to the progress collection. */
    method Submit(userId: Option<string>, store: seq<UserProgress>, now: string) returns (after: seq<UserProgress>)
      requires Valid()
      modifies this
      ensures Valid() && showResults && score == Score(questions, selected, |questions|)
      ensures after == if userId.Some? && userId.value != ""
                       then ApplyReports(store, userId.value, Reports(questions, selected, |questions|), now)
                       else store
      ensures questions == old(questions) && index == old(index) && selected == old(selected)
      ensures error == old(error)
    {
      score := CalculateScore(questions, selected);
      showResults := true;
      after := store;
      if userId.Some? && userId.value != "" {
        after := ReportProgress(questions, selected, userId.value, store, now);
      }
    }

    /** `handleRestartTest`. */
    method Restart()
      requires Valid()
      modifies this
      ensures Valid() && questions == [] && selected == map[] && !showResults && index == 0
      ensures score == old(score) && error == old(error)
    {
      questions := [];
      selected := map[];
      showResults := false;
      index := 0;
    }
  }
}
