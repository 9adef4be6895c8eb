/** The question management page (src/app/admin/questions/manage/page.tsx):
    the topic and search filter over the loaded questions, the removal of a
    deleted question from the list, and the topic name lookup. The backend
    calls are parameters: the questions and topics are what the loads
    returned, and the outcome of `deleteQuestion` is given. */
module Manage {
  import opened Types
  import opened Text
  import opened Lists

  // ---------------------------------------------------------------------
  // The filter effect

  /** `q.text.toLowerCase().includes(term) || q.explanation?.toLowerCase().includes(term)`,
      where `term` is already lower-cased; an absent explanation does not
      match. */
  predicate SearchHit(q: Question, term: string)
  {
    Contains(ToLower(q.text), term) || (q.explanation.Some? && Contains(ToLower(q.explanation.value), term))
  }

  /** The condition of the topic filter. */
  function OfTopic(topic: string): Question -> bool
  {
    (q: Question) => q.topic == topic
  }

  /** The condition of the search filter. */
  function Matching(term: string): Question -> bool
  {
    q => SearchHit(q, term)
  }

  /** The two `filter`s of the effect: by topic when one is selected, then by
      the lower-cased, untrimmed search term when it is not blank. */
  function Filtered(qs: seq<Question>, topic: string, search: string): seq<Question>
  {
    var byTopic := if topic != "" then Keep(qs, OfTopic(topic)) else qs;
    if Trim(search) != "" then Keep(byTopic, Matching(ToLower(search))) else byTopic
  }

  /** Whether a question is listed: it has the selected topic, if any, and
      matches the search, if it is not blank. */
  predicate Shown(q: Question, topic: string, search: string)
  {
    (topic == "" || q.topic == topic) && (Trim(search) == "" || SearchHit(q, ToLower(search)))
  }

  function ShownBy(topic: string, search: string): Question -> bool
  {
    q => Shown(q, topic, search)
  }

  /** The chained filters are one filter by `Shown`. */
  lemma FilteredIsOneFilter(qs: seq<Question>, topic: string, search: string)
    ensures Filtered(qs, topic, search) == Keep(qs, ShownBy(topic, search))
  {
    var byTopic, bySearch, shown := OfTopic(topic), Matching(ToLower(search)), ShownBy(topic, search);
    if topic != "" && Trim(search) != "" {
      assert Filtered(qs, topic, search) == Keep(Keep(qs, byTopic), bySearch);
      KeepKeep(qs, byTopic, bySearch);
      KeepSame(qs, Both(byTopic, bySearch), shown);
    } else if topic != "" {
      assert Filtered(qs, topic, search) == Keep(qs, byTopic);
      KeepSame(qs, byTopic, shown);
    } else if Trim(search) != "" {
      assert Filtered(qs, topic, search) == Keep(qs, bySearch);
      KeepSame(qs, bySearch, shown);
    } else {
      assert Filtered(qs, topic, search) == qs;
      KeepEverything(qs, shown);
    }
  }

  /** A question is listed exactly when it is loaded and `Shown`; the list
      keeps the loaded order. */
  lemma FilteredQuestions(qs: seq<Question>, topic: string, search: string)
    ensures forall q :: q in Filtered(qs, topic, search) <==> q in qs && Shown(q, topic, search)
    ensures var r, idx := Filtered(qs, topic, search), KeptIndices(qs, ShownBy(topic, search));
            && |idx| == |r|
            && (forall k :: 0 <= k < |idx| ==> idx[k] < |qs| && r[k] == qs[idx[k]])
            && (forall k, l :: 0 <= k < l < |idx| ==> idx[k] < idx[l])
  {
    FilteredIsOneFilter(qs, topic, search);
    KeepIsSubsequence(qs, ShownBy(topic, search));
  }

  /** Lower-casing keeps white space and everything else apart. */
  lemma {:induction false} LowerKeepsSpace(s: string)
    ensures AllSpace(s) <==> AllSpace(ToLower(s))
  {
    var l := ToLower(s);
    forall i | 0 <= i < |s| ensures IsSpace(s[i]) <==> IsSpace(l[i]) {
      if 'A' <= s[i] <= 'Z' {
        assert !IsSpace(s[i]) && !IsSpace(l[i]);
      }
    }
  }

  /** The search ignores case: terms that lower-case alike list the same
      questions. */
  lemma SearchIgnoresCase(qs: seq<Question>, topic: string, s1: string, s2: string)
    requires ToLower(s1) == ToLower(s2)
    ensures Filtered(qs, topic, s1) == Filtered(qs, topic, s2)
  {
    LowerKeepsSpace(s1);
    LowerKeepsSpace(s2);
  }

  // ---------------------------------------------------------------------
  // Deleting

  /** What `deleteQuestion` did: reported success, reported failure, or threw. */
  datatype DeleteOutcome = Succeeded | ReturnedFalse | Threw

  /** The list and the messages after `handleDeleteConfirm`. */
  datatype AfterDelete = AfterDelete(questions: seq<Question>, error: Option<string>, success: Option<string>)

  /** The condition of the delete filter, `q.$id !== id`. */
  function Other(id: string): Question -> bool
  {
    (q: Question) => q.id != Some(id)
  }

  /** `handleDeleteConfirm`: a success filters the list and shows the
      success message; a failure only sets the error, so a success message
      still on screen from an earlier delete stays. */
  function DeleteConfirm(qs: seq<Question>, error: Option<string>, success: Option<string>, id: string,
                         outcome: DeleteOutcome): (r: AfterDelete)
    ensures outcome == Succeeded ==> r.success == Some("Question deleted successfully") && r.error == error
    ensures outcome != Succeeded ==> r.questions == qs && r.success == success && r.error.Some?
  {
    match outcome
    case Succeeded => AfterDelete(Keep(qs, Other(id)), error, Some("Question deleted successfully"))
    case ReturnedFalse => AfterDelete(qs, Some("Failed to delete question"), success)
    case Threw => AfterDelete(qs, Some("An error occurred while deleting the question"), success)
  }

  /** A successful delete removes exactly the questions with that id and
      keeps the others in order; a failed one keeps the list and the success
      message and reports an error. */
  lemma DeleteRemovesExactly(qs: seq<Question>, error: Option<string>, success: Option<string>, id: string,
                             outcome: DeleteOutcome)
    ensures var r := DeleteConfirm(qs, error, success, id, outcome);
            outcome == Succeeded ==>
              && (forall q :: q in r.questions <==> q in qs && q.id != Some(id))
              && r.success.Some? && r.error == error
    ensures var r := DeleteConfirm(qs, error, success, id, outcome);
            outcome != Succeeded ==> r.questions == qs && r.success == success && r.error.Some?
    ensures var r, idx := DeleteConfirm(qs, error, success, id, outcome).questions, KeptIndices(qs, Other(id));
            outcome == Succeeded ==>
              && |idx| == |r|
              && (forall k :: 0 <= k < |idx| ==> idx[k] < |qs| && r[k] == qs[idx[k]])
              && (forall k, l :: 0 <= k < l < |idx| ==> idx[k] < idx[l])
  {
    KeepIsSubsequence(qs, Other(id));
  }

  // ---------------------------------------------------------------------
  // Topic names

  /** `getTopicName`: the name of the first topic with that id, or the id. */
  function TopicName(topics: seq<Topic>, topicId: string): (name: string)
    ensures (forall t :: t in topics ==> t.id != topicId) ==> name == topicId
    ensures forall i :: 0 <= i < |topics| && topics[i].id == topicId
                        && (forall j :: 0 <= j < i ==> topics[j].id != topicId)
                        ==> name == topics[i].name
  {
    if topics == [] then topicId
    else if topics[0].id == topicId then topics[0].name
    else
      var name := TopicName(topics[1..], topicId);
      assert forall i :: 1 <= i < |topics| ==> topics[i] == topics[1..][i - 1];
      name
  }
}
