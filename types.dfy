/** The records the application passes around (src/types/index.ts), and the
    small wrappers the rest of the model uses. */
module Types {

  datatype Option<+T> = None | Some(value: T)

  datatype Result<+T, +E> = Ok(value: T) | Err(error: E)

  /** An answer option of a question (`Option` in src/types/index.ts). */
  datatype AnswerOption = AnswerOption(id: string, text: string, isCorrect: bool)

  datatype Difficulty = Easy | Medium | Hard

  /** The runtime value of a question's `options` field. The declared type is a
      JSON string, but the services also meet an in-memory array, `null`, or no
      field at all, and treat each differently. */
  datatype OptionsField =
    | Stored(json: string)
    | InMemory(list: seq<AnswerOption>)
    | NullValue
    | Missing

  /** What `JSON.parse` yields for a stored options string: an array of
      options, some other JSON value, or a thrown SyntaxError. */
  datatype Parsed = ParsedList(items: seq<AnswerOption>) | ParsedOther | ParseFailure

  /** A question document; `id` is the backend's `$id`. */
  datatype Question = Question(
    id: Option<string>,
    topic: string,
    text: string,
    options: OptionsField,
    parsedOptions: Option<seq<AnswerOption>>,
    difficulty: Difficulty,
    explanation: Option<string>)

  datatype Topic = Topic(id: string, name: string, description: string)

  datatype Mastery = New | Learning | Review | Mastered

  /** A per-user, per-question progress document. A document written by an
      older client may lack `consecutiveCorrect`, hence the Option. */
  datatype UserProgress = UserProgress(
    userId: string,
    questionId: string,
    correct: bool,
    lastAttempted: string,
    attemptsCount: int,
    consecutiveCorrect: Option<int>,
    masteryLevel: Mastery)

  /** `JSON.stringify` followed by `JSON.parse` gives the array back, and the
      serialisation of an array is never the empty string. */
  ghost predicate RoundTrips(parse: string -> Parsed, stringify: seq<AnswerOption> -> string)
  {
    forall os :: parse(stringify(os)) == ParsedList(os) && stringify(os) != ""
  }

  /** Number of options flagged correct. */
  function CorrectCount(os: seq<AnswerOption>): (n: nat)
    ensures n <= |os|
    ensures n == 0 <==> forall j :: 0 <= j < |os| ==> !os[j].isCorrect
  {
    if os == [] then 0
    else (if os[|os| - 1].isCorrect then 1 else 0) + CorrectCount(os[..|os| - 1])
  }

  /** The first option whose id is `id` (`options.find(opt => opt.id === id)`). */
  function FindById(os: seq<AnswerOption>, id: string): (r: Option<AnswerOption>)
    ensures r.Some? <==> exists j :: 0 <= j < |os| && os[j].id == id
    ensures r.Some? ==> r.value in os && r.value.id == id
    ensures r.Some? ==> exists j :: 0 <= j < |os| && os[j] == r.value
                          && forall k :: 0 <= k < j ==> os[k].id != id
  {
    if os == [] then None
    else if os[0].id == id then Some(os[0])
    else
      var r := FindById(os[1..], id);
      assert forall j :: 1 <= j < |os| ==> os[j] == os[1..][j - 1];
      if r.Some? then
        var j :| 0 <= j < |os[1..]| && os[1..][j] == r.value && forall k :: 0 <= k < j ==> os[1..][k].id != id;
        assert os[j + 1] == r.value;
        assert forall k :: 0 <= k < j + 1 ==> os[k].id != id by {
          forall k | 0 <= k < j + 1 ensures os[k].id != id {
            if k > 0 { assert os[k] == os[1..][k - 1]; }
          }
        }
        r
      else r
  }
}
