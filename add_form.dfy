/** The add-question form (src/app/admin/questions/add/page.tsx): the
    field-level `required` rules, the checks of `onSubmit`, the removal of
    blank options, the question sent to `createQuestion`, and the option
    list the "Add Option" and remove buttons edit in place. `stringify`
    stands for `JSON.stringify` on an option list, `parse` for `JSON.parse`,
    and `response` for the backend's answer to the create call. */
module AddForm {
  import opened Types
  import opened Text
  import opened Lists
  import QuestionService

  /** The values react-hook-form hands to `onSubmit`. */
  datatype FormData = FormData(topic: string, text: string, options: seq<AnswerOption>,
                               difficulty: Difficulty, explanation: Option<string>)

  /** A fresh option, as the form's defaults and `addOption` create it. */
  function NewOption(id: string, isCorrect: bool): AnswerOption
  {
    AnswerOption(id, "", isCorrect)
  }

  /** The default values, used again by the reset after a save: no topic, no
      text, a single empty option marked correct, medium difficulty. */
  function Defaults(): FormData
  {
    FormData("", "", [NewOption("1", true)], Medium, Some(""))
  }

  /** The `required` rules on the topic, the question text and each option
      text, checked before `onSubmit` runs: they reject only the empty
      string, so white space passes. */
  predicate PassesRequired(data: FormData)
  {
    data.topic != "" && data.text != "" && forall i :: 0 <= i < |data.options| ==> data.options[i].text != ""
  }

  // ---------------------------------------------------------------------
  // The checks of `onSubmit`

  datatype SubmitError = NoTopic | NoText | NoOption | NotOneCorrect

  function Message(e: SubmitError): string
  {
    match e
    case NoTopic => "Please select a topic"
    case NoText => "Please enter a question text"
    case NoOption => "Please add at least one option with text"
    case NotOneCorrect => "Please mark exactly one option as correct"
  }

  /** `option.text.trim() !== ''`: not white space only (see `Trim`). */
  function NotBlank(): AnswerOption -> bool
  {
    (o: AnswerOption) => !AllSpace(o.text)
  }

  /** `cleanedOptions`: the options whose trimmed text is not empty. */
  function Cleaned(os: seq<AnswerOption>): seq<AnswerOption>
  {
    Keep(os, NotBlank())
  }

  /** The checks up to the correct count, in the order `onSubmit` makes them;
      `!s.trim()` holds exactly when `s` is white space only (see `Trim`). */
  function FirstChecks(data: FormData): (r: Option<SubmitError>)
    ensures r != Some(NotOneCorrect)
  {
    if data.topic == "" then Some(NoTopic)
    else if AllSpace(data.text) then Some(NoText)
    else if |data.options| < 1 || AllSpace(data.options[0].text) then Some(NoOption)
    else None
  }

  /** `onSubmit`'s checks as written: the correct options are counted over
      all options, before the blank ones are removed. */
  function CheckAsWritten(data: FormData): (r: Option<SubmitError>)
  {
    if FirstChecks(data).Some? then FirstChecks(data)
    else if CorrectCount(data.options) != 1 then Some(NotOneCorrect)
    else None
  }

  /** The checks with the correct options counted over the options that are
      saved. */
  function Check(data: FormData): (r: Option<SubmitError>)
  {
    if FirstChecks(data).Some? then FirstChecks(data)
    else if CorrectCount(Cleaned(data.options)) != 1 then Some(NotOneCorrect)
    else None
  }

  /** The question `onSubmit` passes to `createQuestion`: the cleaned options
      serialised, and the explanation defaulted to `''` (`|| ''`). */
  function Created(data: FormData, stringify: seq<AnswerOption> -> string): (q: Question)
    ensures q.id.None? && q.parsedOptions.None? && q.explanation.Some?
    ensures q.topic == data.topic && q.text == data.text && q.difficulty == data.difficulty
    ensures q.options == Stored(stringify(Cleaned(data.options)))
  {
    Question(None, data.topic, data.text, Stored(stringify(Cleaned(data.options))), None, data.difficulty,
             Some(if data.explanation.Some? then data.explanation.value else ""))
  }

  /** Each check fails exactly on its condition, and only when the earlier
      ones pass. */
  lemma CheckCases(data: FormData)
    ensures Check(data) == Some(NoTopic) <==> data.topic == ""
    ensures Check(data) == Some(NoText) <==> data.topic != "" && AllSpace(data.text)
    ensures Check(data) == Some(NoOption) <==>
              data.topic != "" && !AllSpace(data.text) && (|data.options| == 0 || AllSpace(data.options[0].text))
    ensures Check(data) == Some(NotOneCorrect) <==>
              FirstChecks(data).None? && CorrectCount(Cleaned(data.options)) != 1
    ensures Check(data).None? <==> FirstChecks(data).None? && CorrectCount(Cleaned(data.options)) == 1
  {
  }

  /** The options saved are exactly the non-blank ones, in the order of the
      form. */
  lemma CleanedOptions(os: seq<AnswerOption>)
    ensures forall o :: o in Cleaned(os) <==> o in os && !AllSpace(o.text)
    ensures var r, idx := Cleaned(os), KeptIndices(os, NotBlank());
            && |idx| == |r|
            && (forall k :: 0 <= k < |idx| ==> idx[k] < |os| && r[k] == os[idx[k]])
            && (forall k, l :: 0 <= k < l < |idx| ==> idx[k] < idx[l])
  {
    KeepIsSubsequence(os, NotBlank());
  }

  /** A question that passes the checks is saved with at least one option,
      the first option of the form first, and exactly one correct option. */
  lemma CheckedQuestionHasOneCorrect(data: FormData, stringify: seq<AnswerOption> -> string)
    requires Check(data).None?
    ensures var saved := Cleaned(data.options);
            |saved| >= 1 && saved[0] == data.options[0] && CorrectCount(saved) == 1
    ensures Created(data, stringify).options == Stored(stringify(Cleaned(data.options)))
  {
    KeepIsSubsequence(data.options, NotBlank());
    FirstKept(data.options, NotBlank());
  }

  /** When the first element is kept, it comes first. */
  lemma FirstKept(os: seq<AnswerOption>, p: AnswerOption -> bool)
    requires |os| >= 1 && p(os[0])
    ensures |Keep(os, p)| >= 1 && Keep(os, p)[0] == os[0]
  {
    KeepIsSubsequence(os, p);
    var idx := KeptIndices(os, p);
    assert os[0] in Keep(os, p);
    var k :| 0 <= k < |Keep(os, p)| && Keep(os, p)[k] == os[0];
    if idx[0] != 0 {
      assert Keep(os, p)[0] == os[idx[0]];
      // the first kept position is after 0, so 0 is not kept
      KeptIndicesHits(os, p);
      assert false;
    }
  }

  /** Every kept position is listed. */
  lemma {:induction false} KeptIndicesHits(os: seq<AnswerOption>, p: AnswerOption -> bool)
    ensures forall i :: 0 <= i < |os| && p(os[i]) ==> i in KeptIndices(os, p)
  {
    if os != [] {
      var init := os[..|os| - 1];
      KeptIndicesHits(init, p);
      assert forall i :: 0 <= i < |init| ==> init[i] == os[i];
    }
  }

  /** Without blank options the count over the saved options is the count
      over all options, so both checks agree. */
  lemma CheckAgreesWithoutBlanks(data: FormData)
    requires forall i :: 0 <= i < |data.options| ==> !AllSpace(data.options[i].text)
    ensures Check(data) == CheckAsWritten(data)
  {
    KeepEverything(data.options, NotBlank());
  }

  /** As written, a form whose only correct option is white space passes the
      `required` rules and every check, yet saves no correct option. */
  lemma AsWrittenSavesNoCorrect()
    ensures var data := FormData("topic-1", "Capital of France?",
                                 [AnswerOption("1", "Paris", false), AnswerOption("2", "   ", true)],
                                 Medium, Some(""));
            && PassesRequired(data)
            && CheckAsWritten(data).None?
            && Cleaned(data.options) == [AnswerOption("1", "Paris", false)]
            && CorrectCount(Cleaned(data.options)) == 0
            && Check(data) == Some(NotOneCorrect)
  {
    var a, b := AnswerOption("1", "Paris", false), AnswerOption("2", "   ", true);
    var os := [a, b];
    var data := FormData("topic-1", "Capital of France?", os, Medium, Some(""));
    assert !AllSpace(a.text) by {
      assert !IsSpace(a.text[0]);
    }
    assert !AllSpace(data.text) by {
      assert !IsSpace(data.text[0]);
    }
    assert AllSpace(b.text);
    assert os[..1] == [a] && [a][..0] == [];
    assert Keep([a], NotBlank()) == [a];
    assert Cleaned(os) == [a];
    assert CorrectCount(os) == 1;
    assert FirstChecks(data).None?;
  }

  // ---------------------------------------------------------------------
  // The option list

  /** Options numbered "1", "2", ... by position. */
  ghost predicate Numbered(os: seq<AnswerOption>)
  {
    forall i :: 0 <= i < |os| ==> os[i].id == NatToString(i + 1)
  }

  /** `addOption`: an empty, incorrect option with id `String(length + 1)`. */
  function Appended(os: seq<AnswerOption>): (r: seq<AnswerOption>)
    ensures |r| == |os| + 1 && r[..|os|] == os
  {
    os + [NewOption(NatToString(|os| + 1), false)]
  }

  /** The defaults are numbered, adding keeps options numbered, and so does
      removing the last one. */
  lemma NumberingKept(os: seq<AnswerOption>)
    ensures Numbered(Defaults().options)
    ensures Numbered(os) ==> Numbered(Appended(os))
    ensures Numbered(os) && |os| > 1 ==> Numbered(os[..|os| - 1])
  {
    assert NatToString(1) == "1";
  }

  /** Removing an option other than the last and then adding one repeats an
      id: the id is the new length plus one, not a fresh number. */
  lemma RemoveThenAddRepeatsId()
    ensures var os := [NewOption("1", true), NewOption("2", false), NewOption("3", false)];
            var after := Appended(os[..0] + os[1..]);
            after[1].id == after[2].id == "3"
  {
    assert NatToString(3) == "3";
  }

  class QuestionForm {
    var topic: string
    var text: string
    var options: seq<AnswerOption>
    var difficulty: Difficulty
    var explanation: Option<string>
    var loading: bool
    var success: bool
    var error: string

    function Data(): FormData
      reads this
    {
      FormData(topic, text, options, difficulty, explanation)
    }

    constructor ()
      ensures Data() == Defaults() && !loading && !success && error == ""
    {
      topic, text, options, difficulty, explanation := "", "", [NewOption("1", true)], Medium, Some("");
      loading, success, error := false, false, "";
    }

    /** The "Add Option" button. */
    method AddOption()
      modifies this
      ensures options == Appended(old(options))
      ensures topic == old(topic) && text == old(text) && difficulty == old(difficulty)
      ensures explanation == old(explanation) && loading == old(loading)
      ensures success == old(success) && error == old(error)
    {
      options := options + [NewOption(NatToString(|options| + 1), false)];
    }

    /** The remove button, offered only while there is more than one option. */
    method RemoveOption(i: nat)
      requires |options| > 1 && i < |options|
      modifies this
      ensures options == old(options)[..i] + old(options)[i + 1..] && |options| >= 1
      ensures topic == old(topic) && text == old(text) && difficulty == old(difficulty)
      ensures explanation == old(explanation) && loading == old(loading)
      ensures success == old(success) && error == old(error)
    {
      options := options[..i] + options[i + 1..];
    }

    /** The form's submit: the `required` rules, then `onSubmit` with the
        correct options counted over the saved ones. `sent` is what reaches
        the backend. `createQuestion` catches its own errors, so a save
        reports success whatever the backend answered. */
    method Submit(parse: string -> Parsed, stringify: seq<AnswerOption> -> string, response: Option<string>)
      returns (sent: Option<Question>)
      modifies this
      ensures !PassesRequired(old(Data())) ==> sent.None? && unchanged(this)
      ensures PassesRequired(old(Data())) && Check(old(Data())).Some? ==>
                && sent.None? && error == Message(Check(old(Data())).value) && !success && !loading
                && Data() == old(Data())
      ensures PassesRequired(old(Data())) && Check(old(Data())).None? ==>
                && sent == QuestionService.CreateQuestion(Created(old(Data()), stringify), parse, stringify, response).sent
                && success && error == "" && !loading && Data() == Defaults()
    {
      var data := Data();
      if !PassesRequired(data) {
        return None;
      }
      var problem := Check(data);
      if problem.Some? {
        error, loading, success := Message(problem.value), false, false;
        return None;
      }
      error := "";
      var call := QuestionService.CreateQuestion(Created(data, stringify), parse, stringify, response);
      sent := call.sent;
      topic, text, options, difficulty, explanation := "", "", [NewOption("1", true)], Medium, Some("");
      success, loading := true, false;
    }
  }
}
