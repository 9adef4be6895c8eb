/** The question card (src/components/QuestionCard.tsx) used by the review
    page: which options it shows, the enrichment of a single-option question,
    selection, submission with its progress update, and the class each option
    gets. The enrichment's fetch is a parameter (`None` when it throws); the
    shuffles of the pool and of the combined options are the identity. */
module QuestionCardView {
  import opened Types
  import opened Text
  import opened QuestionService
  import opened Distractors
  import opened Progress

  // ---------------------------------------------------------------------
  // The options shown

  /** `question.parsedOptions || (typeof options === 'string' ? JSON.parse(options) : [])`.
      `None` when the card cannot render: the parse throws, or yields a value
      that is not an array, which the effect and the rendering cannot use. */
  function DisplayedOptions(q: Question, parse: string -> Parsed): (r: Option<seq<AnswerOption>>)
    ensures q.parsedOptions.Some? ==> r == q.parsedOptions
    ensures q.parsedOptions.None? && !q.options.Stored? ==> r == Some([])
    ensures q.parsedOptions.None? && q.options.Stored? ==>
              (r.Some? <==> parse(q.options.json).ParsedList?)
  {
    if q.parsedOptions.Some? then q.parsedOptions
    else match q.options
         case Stored(json) =>
           (match parse(json)
            case ParsedList(items) => Some(items)
            case ParsedOther => None
            case ParseFailure => None)
         case InMemory(_) => Some([])
         case NullValue => Some([])
         case Missing => Some([])
  }

  /** A question loaded through the service with a stored options string
      always renders, and shows the service's parsed options: the normalised
      array, or nothing when the string is not an array. */
  lemma LoadedQuestionRenders(q: Question, parse: string -> Parsed)
    requires q.options.Stored? && q.options.json != ""
    ensures DisplayedOptions(ParseQuestionOptions(q, parse), parse).Some?
    ensures parse(q.options.json).ParsedList? ==>
              DisplayedOptions(ParseQuestionOptions(q, parse), parse) == Some(NormaliseIds(parse(q.options.json).items))
    ensures !parse(q.options.json).ParsedList? ==>
              DisplayedOptions(ParseQuestionOptions(q, parse), parse) == Some([])
  {
  }

  // ---------------------------------------------------------------------
  // Enrichment

  /** A question the card may borrow from: another id (an id-less question
      is "other" only to a card with an id) with a non-empty `parsedOptions`. */
  predicate CardLender(q: Question, currentId: Option<string>)
  {
    q.id != currentId && q.parsedOptions.Some? && |q.parsedOptions.value| > 0
  }

  /** The `filter` building the card's pool, in fetch order. */
  function CardPool(all: seq<Question>, currentId: Option<string>): (pool: seq<Question>)
    ensures |pool| <= |all|
    ensures forall q :: q in pool <==> q in all && CardLender(q, currentId)
  {
    if all == [] then []
    else CardPool(all[..|all| - 1], currentId) + (if CardLender(all[|all| - 1], currentId) then [all[|all| - 1]] else [])
  }

  function CardLists(pool: seq<Question>): (lists: seq<seq<AnswerOption>>)
    ensures |lists| == |pool|
  {
    seq(|pool|, i requires 0 <= i < |pool| => if pool[i].parsedOptions.Some? then pool[i].parsedOptions.value else [])
  }

  /** What the card's enrichment leaves in `enrichedOptions`: the current
      options when the fetch fails or the pool is empty, else the current
      options followed by the borrowed ones. */
  function CardEnrichment(current: seq<AnswerOption>, currentId: Option<string>, fetched: Option<seq<Question>>)
    : seq<AnswerOption>
  {
    if fetched.None? then current else Enrich(current, CardLists(CardPool(fetched.value, currentId)))
  }

  /** The card's `enrichOptionsWithAdditionalChoices`. */
  method EnrichCardOptions(current: seq<AnswerOption>, currentId: Option<string>, fetched: Option<seq<Question>>)
    returns (r: seq<AnswerOption>)
    ensures r == CardEnrichment(current, currentId, fetched)
  {
    if fetched.None? {
      return current;
    }
    var pool := CardPool(fetched.value, currentId);
    if |pool| == 0 {
      return current;
    }
    var additional := CollectDistractors(CardLists(pool));
    BorrowedOptions(CardLists(pool));
    r := current + Take(additional, MaxAdditional);
  }

  /** The card keeps its options in front and adds at most three, none of
      them correct, with ids `additional-1..k`, each the text of an incorrect
      option of another question of the fetch that has options. */
  lemma CardEnrichmentBorrows(current: seq<AnswerOption>, currentId: Option<string>, fetched: Option<seq<Question>>)
    ensures var r := CardEnrichment(current, currentId, fetched);
            && r[..|current|] == current
            && |current| <= |r| <= |current| + MaxAdditional
            && CorrectCount(r) == CorrectCount(current)
            && (forall j :: |current| <= j < |r| ==>
                  !r[j].isCorrect && r[j].id == AdditionalId(j - |current| + 1))
    ensures fetched.Some? ==>
              var r := CardEnrichment(current, currentId, fetched);
              forall j :: |current| <= j < |r| ==>
                exists q, o :: q in fetched.value && CardLender(q, currentId)
                               && o in q.parsedOptions.value && !o.isCorrect && o.text == r[j].text
  {
    if fetched.Some? {
      var pool := CardPool(fetched.value, currentId);
      var lists := CardLists(pool);
      EnrichKeepsCurrent(current, lists);
      BorrowedOptions(lists);
      var r := CardEnrichment(current, currentId, fetched);
      forall j | |current| <= j < |r|
        ensures exists q, o :: q in fetched.value && CardLender(q, currentId)
                               && o in q.parsedOptions.value && !o.isCorrect && o.text == r[j].text
      {
        var b := Borrowed(lists);
        assert r[j] == b[j - |current|];
        var i: nat, o: AnswerOption :| 0 <= i < |lists| && o in lists[i] && !o.isCorrect && o.text == b[j - |current|].text;
        assert pool[i] in pool;
      }
    }
  }

  // ---------------------------------------------------------------------
  // Answering

  /** `originalOptions.find(opt => opt.id === selected)?.isCorrect || false`. */
  predicate AnswerIsCorrect(original: seq<AnswerOption>, selectedId: string)
  {
    var found := FindById(original, selectedId);
    found.Some? && found.value.isCorrect
  }

  /** Option ids are unique. */
  ghost predicate DistinctIds(os: seq<AnswerOption>)
  {
    forall i, j :: 0 <= i < j < |os| ==> os[i].id != os[j].id
  }

  /** With unique ids, an answer is correct exactly when an original option
      carries the selected id and is flagged correct; so a borrowed id, which
      no original option carries, is never correct. Unique ids are not
      guaranteed: the add form can save two options with the same id (see
      `AddForm.RemoveThenAddRepeatsId`), and then only the first option with
      the selected id decides the verdict, as `FindById` states. */
  lemma AnswerCorrectIffOriginalCorrect(original: seq<AnswerOption>, selectedId: string)
    requires DistinctIds(original)
    ensures AnswerIsCorrect(original, selectedId) <==>
            exists j :: 0 <= j < |original| && original[j].id == selectedId && original[j].isCorrect
  {
    if exists j :: 0 <= j < |original| && original[j].id == selectedId && original[j].isCorrect {
      var j :| 0 <= j < |original| && original[j].id == selectedId && original[j].isCorrect;
      var found := FindById(original, selectedId);
      var k :| 0 <= k < |original| && original[k] == found.value && forall m :: 0 <= m < k ==> original[m].id != selectedId;
      assert k == j;
    }
  }

  // ---------------------------------------------------------------------
  // Option classes

  /** The five classes `getOptionClassName` hands out. */
  datatype OptionStyle = Chosen | Idle | RightAnswer | WrongChoice | Faded

  predicate IsOriginal(original: seq<AnswerOption>, id: string)
  {
    exists j :: 0 <= j < |original| && original[j].id == id
  }

  /** `getOptionClassName`. */
  function StyleOf(submitted: bool, selected: Option<string>, original: seq<AnswerOption>, o: AnswerOption)
    : OptionStyle
  {
    if !submitted then (if selected == Some(o.id) then Chosen else Idle)
    else if IsOriginal(original, o.id) && o.isCorrect then RightAnswer
    else if selected == Some(o.id) && (!IsOriginal(original, o.id) || !o.isCorrect) then WrongChoice
    else Faded
  }

  /** After submission an option is green exactly when it is an original
      correct one, red exactly when it is the selected one otherwise, and
      dimmed in every other case; before submission only the selection
      stands out. */
  lemma StylesPartition(submitted: bool, selected: Option<string>, original: seq<AnswerOption>, o: AnswerOption)
    ensures var s := StyleOf(submitted, selected, original, o);
            && (s.Chosen? || s.Idle? <==> !submitted)
            && (s == Chosen <==> !submitted && selected == Some(o.id))
            && (s == RightAnswer <==> submitted && IsOriginal(original, o.id) && o.isCorrect)
            && (s == WrongChoice <==> submitted && selected == Some(o.id) && !(IsOriginal(original, o.id) && o.isCorrect))
            && (s == Faded <==> submitted && selected != Some(o.id) && !(IsOriginal(original, o.id) && o.isCorrect))
  {
  }

  /** The colour of the chosen original option agrees with the verdict: green
      when the answer was judged correct, red when not. */
  lemma StyleAgreesWithVerdict(original: seq<AnswerOption>, j: nat)
    requires DistinctIds(original) && j < |original|
    ensures var o := original[j];
            (StyleOf(true, Some(o.id), original, o) == RightAnswer <==> AnswerIsCorrect(original, o.id))
            && (StyleOf(true, Some(o.id), original, o) == WrongChoice <==> !AnswerIsCorrect(original, o.id))
  {
    AnswerCorrectIffOriginalCorrect(original, original[j].id);
  }

  /** A borrowed option is never shown green when no original id has the
      `additional-` prefix. */
  lemma BorrowedNeverGreen(original: seq<AnswerOption>, selected: Option<string>, o: AnswerOption)
    requires forall j :: 0 <= j < |original| ==> !StartsWith(original[j].id, AdditionalPrefix)
    requires StartsWith(o.id, AdditionalPrefix)
    ensures StyleOf(true, selected, original, o) != RightAnswer
    ensures selected == Some(o.id) ==> StyleOf(true, selected, original, o) == WrongChoice
  {
  }

  // ---------------------------------------------------------------------
  // The component state

  class QuestionCard {
    var question: Question
    var selected: Option<string>
    var submitted: bool
    var correct: bool
    var loading: bool
    var enriched: seq<AnswerOption>
    var original: seq<AnswerOption>

    /** The initial state: nothing shown yet. */
    constructor (q: Question)
      ensures question == q && selected == None && !submitted && !correct && !loading
      ensures enriched == [] && original == []
    {
      question := q;
      selected := None;
      submitted := false;
      correct := false;
      loading := false;
      enriched := [];
      original := [];
    }

    /** Rendering question `q` and running the effect for it: the answer
        state is reset, the shown options are kept as the originals, and only
        a single option is enriched. When the options cannot be shown the
        render fails and nothing changes. */
    method Show(q: Question, parse: string -> Parsed, fetched: Option<seq<Question>>) returns (shown: bool)
      modifies this
      ensures shown <==> DisplayedOptions(q, parse).Some?
      ensures !shown ==> unchanged(this)
      ensures shown ==>
                var os := DisplayedOptions(q, parse).value;
                && question == q && selected == None && !submitted && !correct && loading == old(loading)
                && original == os
                && enriched == (if |os| == 1 then CardEnrichment(os, q.id, fetched) else os)
    {
      var os := DisplayedOptions(q, parse);
      if os.None? {
        return false;
      }
      shown := true;
      question := q;
      selected := None;
      submitted := false;
      correct := false;
      original := os.value;
      if |os.value| == 1 {
        enriched := EnrichCardOptions(os.value, q.id, fetched);
      } else {
        enriched := os.value;
      }
    }

    /** `handleSelectOption`: ignored once the answer is submitted. */
    method Select(optionId: string)
      modifies this
      ensures selected == if old(submitted) then old(selected) else Some(optionId)
      ensures question == old(question) && submitted == old(submitted) && correct == old(correct)
      ensures loading == old(loading) && enriched == old(enriched) && original == old(original)
    {
      if !submitted {
        selected := Some(optionId);
      }
    }

    /** `handleSubmit`: a no-op without a (non-empty) selection, after a
        submission or while loading. Otherwise the verdict is recorded, the
        progress of a signed-in user is updated, and `onComplete` receives
        the verdict, returned here as `completed`. A question without an id
        reaches the progress service as `undefined`; the model assumes that
        this backend write fails and is swallowed there, leaving the
        collection unchanged (the backend's behaviour is not visible here). */
    method Submit(userId: string, store: seq<UserProgress>, now: string)
      returns (after: seq<UserProgress>, completed: Option<bool>)
      modifies this
      ensures var blocked := old(selected).None? || old(selected).value == "" || old(submitted) || old(loading);
              && (blocked ==> after == store && completed == None
                              && submitted == old(submitted) && correct == old(correct))
              && (!blocked ==>
                    var verdict := AnswerIsCorrect(old(original), old(selected).value);
                    && submitted && correct == verdict && completed == Some(verdict)
                    && after == (if userId != "" && old(question).id.Some?
                                 then RecordAnswer(store, userId, old(question).id.value, verdict, now).0
                                 else store))
      ensures question == old(question) && selected == old(selected) && loading == old(loading)
      ensures enriched == old(enriched) && original == old(original)
    {
      after := store;
      completed := None;
      if selected.None? || selected.value == "" || submitted || loading {
        return;
      }
      var verdict := AnswerIsCorrect(original, selected.value);
      correct := verdict;
      submitted := true;
      if userId != "" && question.id.Some? {
        after := RecordAnswer(store, userId, question.id.value, verdict, now).0;
      }
      completed := Some(verdict);
    }

  }
}
