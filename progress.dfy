/** The mastery state machine of the progress service
    (src/services/progressService.ts): how a progress record is created or
    updated after an answer, and which records are due for review. The backend
    collection is modelled as a sequence of records in document order; the
    clock reading `now` is a parameter. */
module Progress {
  import opened Types

  /** The streak stored in a record; a record without one counts as 0
      (`consecutiveCorrect || 0`). */
  function Streak(p: UserProgress): int
  {
    if p.consecutiveCorrect.Some? then p.consecutiveCorrect.value else 0
  }

  /** The level a correct answer sets for a streak, or `None` when none of the
      three thresholds is reached and the field is left out of the update. */
  function LevelForStreak(streak: int): (m: Option<Mastery>)
    ensures m.Some? <==> streak >= 1
    ensures m == Some(Mastered) <==> streak >= 5
    ensures m == Some(Review) <==> 3 <= streak < 5
    ensures m == Some(Learning) <==> 1 <= streak < 3
  {
    if streak >= 5 then Some(Mastered)
    else if streak >= 3 then Some(Review)
    else if streak >= 1 then Some(Learning)
    else None
  }

  /** The record created on a first attempt. */
  function FirstAttempt(userId: string, questionId: string, correct: bool, now: string): (p: UserProgress)
    ensures p.userId == userId && p.questionId == questionId && p.correct == correct && p.lastAttempted == now
  {
    UserProgress(userId, questionId, correct, now, 1, Some(if correct then 1 else 0),
                 if correct then Learning else New)
  }

  /** The record after the partial update of a later attempt: the fields the
      update carries are overwritten, the others are kept. */
  function NextAttempt(p: UserProgress, correct: bool, now: string): (r: UserProgress)
    ensures r.userId == p.userId && r.questionId == p.questionId
    ensures r.correct == correct && r.lastAttempted == now
    ensures r.attemptsCount == p.attemptsCount + 1
    ensures !correct ==> r.consecutiveCorrect == Some(0) && r.masteryLevel == Learning
    ensures correct ==> r.consecutiveCorrect == Some(Streak(p) + 1)
  {
    var streak := if correct then Streak(p) + 1 else 0;
    var level := if correct then LevelForStreak(streak) else Some(Learning);
    p.(correct := correct, lastAttempted := now, attemptsCount := p.attemptsCount + 1,
       consecutiveCorrect := Some(streak),
       masteryLevel := if level.Some? then level.value else p.masteryLevel)
  }

  /** A first attempt is `learning` when correct and `new` otherwise, with one
      attempt and a streak of 1 or 0. */
  lemma FirstAttemptLevel(userId: string, questionId: string, correct: bool, now: string)
    ensures FirstAttempt(userId, questionId, correct, now).attemptsCount == 1
    ensures FirstAttempt(userId, questionId, correct, now).masteryLevel == New <==> !correct
    ensures FirstAttempt(userId, questionId, correct, now).masteryLevel == Learning <==> correct
    ensures Streak(FirstAttempt(userId, questionId, correct, now)) == (if correct then 1 else 0)
  {
  }

  /** After a correct answer the level follows the new streak: `mastered`
      from 5, `review` at 3 and 4, `learning` at 1 and 2. A stored streak below
      0 would leave the level as it was. */
  lemma CorrectAnswerLevel(p: UserProgress, now: string)
    requires Streak(p) >= 0
    ensures var r := NextAttempt(p, true, now);
            (r.masteryLevel == Mastered <==> Streak(r) >= 5)
            && (r.masteryLevel == Review <==> 3 <= Streak(r) < 5)
            && (r.masteryLevel == Learning <==> 1 <= Streak(r) < 3)
  {
    var r := NextAttempt(p, true, now);
    assert Streak(r) == Streak(p) + 1 >= 1;
    assert LevelForStreak(Streak(r)).Some?;
  }

  /** An update never produces `new`, as long as the stored streak is not
      negative; `new` comes only from a wrong first attempt. */
  lemma UpdateIsNeverNew(p: UserProgress, correct: bool, now: string)
    requires Streak(p) >= 0
    ensures NextAttempt(p, correct, now).masteryLevel != New
  {
    if correct {
      CorrectAnswerLevel(p, now);
    }
  }

  /** What a well-formed record satisfies: at least one attempt, a streak
      between 0 and the attempts, a streak of 0 exactly after a wrong answer,
      the level of the streak after a correct one, and `new` only after a
      single wrong attempt. */
  ghost predicate Consistent(p: UserProgress)
  {
    && p.attemptsCount >= 1
    && p.consecutiveCorrect.Some?
    && 0 <= Streak(p) <= p.attemptsCount
    && (p.correct <==> Streak(p) >= 1)
    && (p.correct ==> LevelForStreak(Streak(p)) == Some(p.masteryLevel))
    && (!p.correct ==> p.masteryLevel == Learning || (p.masteryLevel == New && p.attemptsCount == 1))
  }

  lemma FirstAttemptIsConsistent(userId: string, questionId: string, correct: bool, now: string)
    ensures Consistent(FirstAttempt(userId, questionId, correct, now))
  {
  }

  /** Every update keeps a record consistent; in particular the streak never
      exceeds the number of attempts. */
  lemma NextAttemptKeepsConsistent(p: UserProgress, correct: bool, now: string)
    requires Consistent(p)
    ensures Consistent(NextAttempt(p, correct, now))
  {
    var r := NextAttempt(p, correct, now);
    assert Streak(r) == (if correct then Streak(p) + 1 else 0);
  }

  /** The record after a run of answers, the first of them on `p`. */
  function AfterAnswers(p: UserProgress, answers: seq<bool>, now: string): UserProgress
    decreases |answers|
  {
    if answers == [] then p else AfterAnswers(NextAttempt(p, answers[0], now), answers[1..], now)
  }

  /** A run of correct answers adds its length to the streak and to the
      attempts. */
  lemma {:induction false} CorrectRunExtendsStreak(p: UserProgress, answers: seq<bool>, now: string)
    requires forall i :: 0 <= i < |answers| ==> answers[i]
    ensures Streak(AfterAnswers(p, answers, now)) == if answers == [] then Streak(p) else Streak(p) + |answers|
    ensures AfterAnswers(p, answers, now).attemptsCount == p.attemptsCount + |answers|
    decreases |answers|
  {
    if answers != [] {
      CorrectRunExtendsStreak(NextAttempt(p, true, now), answers[1..], now);
    }
  }

  /** Five correct answers in a row master a question, whatever its record
      held before, provided the stored streak is not negative. */
  lemma FiveCorrectMaster(p: UserProgress, answers: seq<bool>, now: string)
    requires Streak(p) >= 0 && |answers| >= 5
    requires forall i :: 0 <= i < |answers| ==> answers[i]
    ensures AfterAnswers(p, answers, now).masteryLevel == Mastered
  {
    var init := answers[..|answers| - 1];
    CorrectRunExtendsStreak(p, init, now);
    var q := AfterAnswers(p, init, now);
    AfterAnswersSnoc(p, init, true, now);
    assert answers == init + [true];
    CorrectAnswerLevel(q, now);
  }

  lemma {:induction false} AfterAnswersSnoc(p: UserProgress, answers: seq<bool>, a: bool, now: string)
    ensures AfterAnswers(p, answers + [a], now) == NextAttempt(AfterAnswers(p, answers, now), a, now)
    decreases |answers|
  {
    if answers != [] {
      assert (answers + [a])[1..] == answers[1..] + [a];
      AfterAnswersSnoc(NextAttempt(p, answers[0], now), answers[1..], a, now);
    }
  }

  // ---------------------------------------------------------------------
  // The collection

  /** `getUserQuestionProgress`: the first record of the pair, if any. */
  function FindProgress(store: seq<UserProgress>, userId: string, questionId: string): (r: Option<nat>)
    ensures r.Some? ==> r.value < |store| && store[r.value].userId == userId && store[r.value].questionId == questionId
    ensures r.Some? ==> forall j :: 0 <= j < r.value ==> !(store[j].userId == userId && store[j].questionId == questionId)
    ensures r.None? ==> forall j :: 0 <= j < |store| ==> !(store[j].userId == userId && store[j].questionId == questionId)
  {
    if store == [] then None
    else
      var r := FindProgress(store[..|store| - 1], userId, questionId);
      if r.Some? then r
      else if store[|store| - 1].userId == userId && store[|store| - 1].questionId == questionId then Some(|store| - 1)
      else None
  }

  /** `updateUserProgress`: the collection afterwards and the record returned.
      An existing record is updated in place; otherwise a new one is appended. */
  function RecordAnswer(store: seq<UserProgress>, userId: string, questionId: string, correct: bool, now: string)
    : (r: (seq<UserProgress>, UserProgress))
    ensures FindProgress(store, userId, questionId).Some? ==>
              var j := FindProgress(store, userId, questionId).value;
              r.0 == store[j := r.1] && r.1 == NextAttempt(store[j], correct, now)
    ensures FindProgress(store, userId, questionId).None? ==>
              r.0 == store + [r.1] && r.1 == FirstAttempt(userId, questionId, correct, now)
  {
    match FindProgress(store, userId, questionId)
    case Some(j) => var p := NextAttempt(store[j], correct, now); (store[j := p], p)
    case None => var p := FirstAttempt(userId, questionId, correct, now); (store + [p], p)
  }

  /** At most one record per user and question. */
  ghost predicate OnePerPair(store: seq<UserProgress>)
  {
    forall i, j :: 0 <= i < j < |store| ==>
      !(store[i].userId == store[j].userId && store[i].questionId == store[j].questionId)
  }

  /** Recording an answer keeps one record per pair and keeps every record
      consistent. */
  lemma RecordAnswerKeepsStore(store: seq<UserProgress>, userId: string, questionId: string, correct: bool, now: string)
    requires OnePerPair(store)
    requires forall i :: 0 <= i < |store| ==> Consistent(store[i])
    ensures OnePerPair(RecordAnswer(store, userId, questionId, correct, now).0)
    ensures forall i :: 0 <= i < |RecordAnswer(store, userId, questionId, correct, now).0| ==>
              Consistent(RecordAnswer(store, userId, questionId, correct, now).0[i])
  {
    var r := RecordAnswer(store, userId, questionId, correct, now);
    match FindProgress(store, userId, questionId)
    case Some(j) =>
      NextAttemptKeepsConsistent(store[j], correct, now);
    case None =>
      FirstAttemptIsConsistent(userId, questionId, correct, now);
  }

  /** Records in `learning` or `review`, i.e. neither `mastered` nor `new`. */
  predicate Due(p: UserProgress)
  {
    p.masteryLevel != Mastered && p.masteryLevel != New
  }

  /** `getQuestionsForReview`: the question ids of the user's due records, in
      document order. */
  function ReviewIds(store: seq<UserProgress>, userId: string): (ids: seq<string>)
    ensures |ids| <= |store|
  {
    if store == [] then []
    else
      var last := store[|store| - 1];
      ReviewIds(store[..|store| - 1], userId) + (if last.userId == userId && Due(last) then [last.questionId] else [])
  }

  /** A question id is listed exactly when one of the user's records for it is
      in `learning` or `review`. */
  lemma {:induction false} ReviewIdsMembers(store: seq<UserProgress>, userId: string, qid: string)
    ensures qid in ReviewIds(store, userId) <==>
            exists i :: 0 <= i < |store| && store[i].userId == userId && store[i].questionId == qid
                        && (store[i].masteryLevel == Learning || store[i].masteryLevel == Review)
  {
    if store != [] {
      var init := store[..|store| - 1];
      ReviewIdsMembers(init, userId, qid);
      if qid in ReviewIds(init, userId) {
        var i :| 0 <= i < |init| && init[i].userId == userId && init[i].questionId == qid
                 && (init[i].masteryLevel == Learning || init[i].masteryLevel == Review);
        assert store[i] == init[i];
      }
      if exists i :: 0 <= i < |store| && store[i].userId == userId && store[i].questionId == qid
                     && (store[i].masteryLevel == Learning || store[i].masteryLevel == Review) {
        var i :| 0 <= i < |store| && store[i].userId == userId && store[i].questionId == qid
                 && (store[i].masteryLevel == Learning || store[i].masteryLevel == Review);
        if i < |init| {
          assert init[i] == store[i];
        }
      }
    }
  }
}
