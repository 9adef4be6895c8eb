/** The daily review page (src/app/review/page.tsx): the review list is
    assembled from the ids of the user's due records, then the questions are
    answered one after another while two counters keep the score. The
    authentication service, the progress collection and the question lookup
    are parameters: `authenticated` and `user` are what the two auth calls
    returned, `store` is the progress collection, and `fetch` is
    `getQuestionById`, which yields `None` when the lookup fails. */
module Review {
  import opened Types
  import opened Progress

  // ---------------------------------------------------------------------
  // The review list

  /** The questions whose lookup succeeded, in the order of the ids. */
  function ReviewList(ids: seq<string>, fetch: string -> Option<Question>): (qs: seq<Question>)
    ensures |qs| <= |ids|
  {
    if ids == [] then []
    else
      var last := fetch(ids[|ids| - 1]);
      ReviewList(ids[..|ids| - 1], fetch) + (if last.Some? then [last.value] else [])
  }

  /** The `for ... of` loop of `loadData`: each id is looked up in turn and
      the questions found are pushed. */
  method LoadReviewList(ids: seq<string>, fetch: string -> Option<Question>) returns (qs: seq<Question>)
    ensures qs == ReviewList(ids, fetch)
  {
    qs := [];
    var i := 0;
    while i < |ids|
      invariant i <= |ids| && qs == ReviewList(ids[..i], fetch)
    {
      assert ids[..i + 1][..i] == ids[..i];
      var question := fetch(ids[i]);
      if question.Some? {
        qs := qs + [question.value];
      }
      i := i + 1;
    }
    assert ids[..i] == ids;
  }

  /** A question is on the list exactly when the lookup of one of the ids
      returned it. */
  lemma {:induction false} ReviewListMembers(ids: seq<string>, fetch: string -> Option<Question>, q: Question)
    ensures q in ReviewList(ids, fetch) <==> exists i :: 0 <= i < |ids| && fetch(ids[i]) == Some(q)
  {
    if ids != [] {
      var init := ids[..|ids| - 1];
      ReviewListMembers(init, fetch, q);
      if q in ReviewList(init, fetch) {
        var i :| 0 <= i < |init| && fetch(init[i]) == Some(q);
        assert ids[i] == init[i];
      }
      if exists i :: 0 <= i < |ids| && fetch(ids[i]) == Some(q) {
        var i :| 0 <= i < |ids| && fetch(ids[i]) == Some(q);
        if i < |init| {
          assert init[i] == ids[i];
        }
      }
    }
  }

  /** When every lookup succeeds, the list holds one question per id, in the
      order of the ids. */
  lemma {:induction false} ReviewListInOrder(ids: seq<string>, fetch: string -> Option<Question>)
    requires forall i :: 0 <= i < |ids| ==> fetch(ids[i]).Some?
    ensures |ReviewList(ids, fetch)| == |ids|
    ensures forall i :: 0 <= i < |ids| ==> ReviewList(ids, fetch)[i] == fetch(ids[i]).value
  {
    if ids != [] {
      var init := ids[..|ids| - 1];
      assert forall i :: 0 <= i < |init| ==> init[i] == ids[i];
      ReviewListInOrder(init, fetch);
    }
  }

  // ---------------------------------------------------------------------
  // The screens

  datatype Screen =
    | Loading
    | LoginRequired
    | NoReview
    | Completed(correct: nat, total: nat)
      /** The card for `question`, headed "Question position of total". */
    | Asking(question: Question, position: nat, total: nat, userId: string)

  /** The page's chain of early returns, in order. */
  function ScreenOf(loading: bool, authenticated: bool, questions: seq<Question>, index: nat,
                    completed: nat, correct: nat, userId: Option<string>): (s: Screen)
    requires |questions| > 0 ==> index < |questions|
    ensures s.NoReview? <==> !loading && authenticated && |questions| == 0
    ensures s.Completed? <==> !loading && authenticated && |questions| > 0 && completed == |questions|
    ensures s.Asking? <==> !loading && authenticated && |questions| > 0 && completed != |questions|
    ensures s.Asking? ==> s.question == questions[index] && s.position == index + 1 && s.total == |questions|
  {
    if loading then Loading
    else if !authenticated then LoginRequired
    else if |questions| == 0 then NoReview
    else if completed == |questions| then Completed(correct, |questions|)
    else Asking(questions[index], index + 1, |questions|, if userId.Some? then userId.value else "")
  }

  /** The counters of a session: no more correct answers than answers, no
      more answers than questions, and the index on the next unanswered
      question (or on the last one once all are answered). */
  ghost predicate Counters(questions: seq<Question>, index: nat, completed: nat, correct: nat)
  {
    && correct <= completed <= |questions|
    && index == (if completed < |questions| then completed else if |questions| == 0 then 0 else |questions| - 1)
  }

  /** One more answer keeps the counters; the next screen asks the next
      question, until the last answer completes the session. */
  lemma CompleteKeepsCounters(questions: seq<Question>, index: nat, completed: nat, correct: nat, ok: bool)
    requires Counters(questions, index, completed, correct) && completed < |questions|
    ensures var index' := if index < |questions| - 1 then index + 1 else index;
            Counters(questions, index', completed + 1, if ok then correct + 1 else correct)
  {
  }

  class ReviewSession {
    var questions: seq<Question>
    var index: nat
    var completedCount: nat
    var correctCount: nat
    var loading: bool
    var isAuthenticated: bool
    var userId: Option<string>

    ghost predicate Valid()
      reads this
    {
      Counters(questions, index, completedCount, correctCount)
    }

    /** What the page renders. */
    function Screen(): (s: Screen)
      reads this
      requires Valid()
      ensures s.Asking? ==> completedCount < |questions| && s.question == questions[completedCount]
    {
      ScreenOf(loading, isAuthenticated, questions, index, completedCount, correctCount, userId)
    }

    /** The initial state: loading, nothing answered. */
    constructor ()
      ensures Valid() && loading && !isAuthenticated && questions == [] && userId == None
      ensures index == 0 && completedCount == 0 && correctCount == 0
    {
      questions := [];
      index := 0;
      completedCount := 0;
      correctCount := 0;
      loading := true;
      isAuthenticated := false;
      userId := None;
    }

    /** `loadData`, run once on mount. An unauthenticated visitor gets
        nothing; a user with an id gets the questions of their due records,
        set only when there is at least one due id. */
    method Load(authenticated: bool, user: Option<string>, store: seq<UserProgress>,
                fetch: string -> Option<Question>)
      requires Valid() && completedCount == 0
      modifies this
      ensures Valid() && !loading && isAuthenticated == authenticated
      ensures !authenticated || user.None? || user.value == "" ==>
                questions == old(questions) && userId == old(userId)
      ensures authenticated && user.Some? && user.value != "" ==>
                && userId == user
                && var ids := ReviewIds(store, user.value);
                   questions == if |ids| > 0 then ReviewList(ids, fetch) else old(questions)
      ensures index == old(index) && completedCount == old(completedCount) && correctCount == old(correctCount)
    {
      isAuthenticated := authenticated;
      if !authenticated {
        loading := false;
        return;
      }
      if user.Some? && user.value != "" {
        userId := user;
        var ids := ReviewIds(store, user.value);
        if |ids| > 0 {
          var found := LoadReviewList(ids, fetch);
          questions := found;
        }
      }
      loading := false;
    }

    /** `handleQuestionComplete`, called by the card on the question screen. */
    method Complete(correct: bool)
      requires Valid() && Screen().Asking?
      modifies this
      ensures Valid()
      ensures completedCount == old(completedCount) + 1
      ensures correctCount == if correct then old(correctCount) + 1 else old(correctCount)
      ensures index == if old(index) < |questions| - 1 then old(index) + 1 else old(index)
      ensures Screen().Completed? <==> completedCount == |questions|
      ensures Screen().Asking? ==> old(completedCount) + 1 < |questions| && Screen().question == questions[old(completedCount) + 1]
      ensures questions == old(questions) && loading == old(loading)
      ensures isAuthenticated == old(isAuthenticated) && userId == old(userId)
    {
      CompleteKeepsCounters(questions, index, completedCount, correctCount, correct);
      completedCount := completedCount + 1;
      if correct {
        correctCount := correctCount + 1;
      }
      if index < |questions| - 1 {
        index := index + 1;
      }
    }
  }
}
