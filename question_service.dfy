/** The record transformations of the question service
    (src/services/questionService.ts): option-id normalisation on load, the
    serialisation rules on save and update, the topic guard of `createQuestion`
    and the batching of `createBulkQuestions`. The backend calls are left out;
    `parse` and `stringify` stand for `JSON.parse` and `JSON.stringify` on
    option arrays. */
module QuestionService {
  import opened Types
  import opened Text

  /** The prefix of the option ids an older client wrote. */
  const LegacyPrefix: string := "option-"

  /** One option after loading: a legacy id becomes its 1-based position. */
  function NormaliseId(o: AnswerOption, index: nat): AnswerOption
  {
    if StartsWith(o.id, LegacyPrefix) then o.(id := NatToString(index + 1)) else o
  }

  /** The `map` of `parseQuestionOptions`. */
  function NormaliseIds(os: seq<AnswerOption>): (r: seq<AnswerOption>)
    ensures |r| == |os|
    ensures forall j :: 0 <= j < |os| ==> r[j].text == os[j].text && r[j].isCorrect == os[j].isCorrect
    ensures forall j :: 0 <= j < |os| ==> r[j].id == os[j].id || r[j].id == NatToString(j + 1)
  {
    seq(|os|, j requires 0 <= j < |os| => NormaliseId(os[j], j))
  }

  /** A decimal numeral never carries the legacy prefix. */
  lemma NumeralIsNotLegacy(n: nat)
    ensures !StartsWith(NatToString(n), LegacyPrefix)
  {
  }

  /** After normalisation no id is a legacy id, and ids that were not legacy
      ones are kept. */
  lemma NormalisedIdsAreCurrent(os: seq<AnswerOption>)
    ensures forall j :: 0 <= j < |os| ==> !StartsWith(NormaliseIds(os)[j].id, LegacyPrefix)
    ensures forall j :: 0 <= j < |os| && !StartsWith(os[j].id, LegacyPrefix) ==> NormaliseIds(os)[j] == os[j]
  {
    forall j | 0 <= j < |os| ensures !StartsWith(NormaliseIds(os)[j].id, LegacyPrefix) {
      NumeralIsNotLegacy(j + 1);
    }
  }

  /** Loading twice is loading once. */
  lemma NormaliseIdsIdempotent(os: seq<AnswerOption>)
    ensures NormaliseIds(NormaliseIds(os)) == NormaliseIds(os)
  {
    NormalisedIdsAreCurrent(os);
    NormalisedIdsAreCurrent(NormaliseIds(os));
  }

  /** `parseQuestionOptions`: a non-empty stored string is parsed and its
      option ids normalised; anything that makes the `map` throw (a syntax
      error, or JSON that is not an array) yields an empty list; a question
      whose options are not a non-empty string is returned as it is. */
  function ParseQuestionOptions(q: Question, parse: string -> Parsed): (r: Question)
    ensures r.(parsedOptions := q.parsedOptions) == q
    ensures r != q ==> q.options.Stored? && q.options.json != ""
    ensures q.options.Stored? && q.options.json != "" ==>
              r.parsedOptions == Some(if parse(q.options.json).ParsedList?
                                      then NormaliseIds(parse(q.options.json).items) else [])
  {
    match q.options
    case Stored(json) =>
      if json == "" then q
      else
        (match parse(json)
         case ParsedList(items) => q.(parsedOptions := Some(NormaliseIds(items)))
         case ParsedOther => q.(parsedOptions := Some([]))
         case ParseFailure => q.(parsedOptions := Some([])))
    case InMemory(_) => q
    case NullValue => q
    case Missing => q
  }

  /** `prepareQuestionForSave`: a present `parsedOptions` (even an empty one)
      is serialised into `options` and removed; otherwise a string is kept, an
      array is serialised, `null` becomes the string "null" and a missing field
      stays missing, since `JSON.stringify(undefined)` is `undefined`. */
  function PrepareForSave(q: Question, stringify: seq<AnswerOption> -> string): (r: Question)
    ensures r.(options := q.options, parsedOptions := q.parsedOptions) == q
    ensures r.parsedOptions == None
    ensures q.parsedOptions.Some? ==> r.options == Stored(stringify(q.parsedOptions.value))
    ensures q.parsedOptions.None? && q.options.Stored? ==> r.options == q.options
    ensures r.options.Stored? <==> q.parsedOptions.Some? || !q.options.Missing?
  {
    if q.parsedOptions.Some? then
      q.(options := Stored(stringify(q.parsedOptions.value)), parsedOptions := None)
    else
      match q.options
      case Stored(_) => q
      case InMemory(list) => q.(options := Stored(stringify(list)))
      case NullValue => q.(options := Stored("null"))
      case Missing => q
  }

  /** Preparing a prepared record changes nothing. */
  lemma PrepareForSaveIdempotent(q: Question, stringify: seq<AnswerOption> -> string)
    ensures PrepareForSave(PrepareForSave(q, stringify), stringify) == PrepareForSave(q, stringify)
  {
    var p := PrepareForSave(q, stringify);
    assert p.parsedOptions == None;
    if p.options.Stored? {
    } else {
      assert p.options.Missing?;
    }
  }

  /** `prepareQuestionForUpdate`: as for a save, except that a falsy `options`
      (`null` or missing) is left alone. */
  function PrepareForUpdate(q: Question, stringify: seq<AnswerOption> -> string): (r: Question)
    ensures r.(options := q.options, parsedOptions := q.parsedOptions) == q
    ensures r.parsedOptions == None
    ensures q.parsedOptions.None? && !q.options.InMemory? ==> r.options == q.options
  {
    if q.parsedOptions.Some? then
      q.(options := Stored(stringify(q.parsedOptions.value)), parsedOptions := None)
    else
      match q.options
      case InMemory(list) => q.(options := Stored(stringify(list)))
      case _ => q
  }

  /** An update is prepared like a save except for a `null` options field
      without parsed options, which a save turns into "null". */
  lemma UpdateMatchesSaveExceptNull(q: Question, stringify: seq<AnswerOption> -> string)
    ensures PrepareForUpdate(q, stringify) == PrepareForSave(q, stringify)
            <==> q.parsedOptions.Some? || !q.options.NullValue?
  {
    if q.parsedOptions.None? && q.options.NullValue? {
      assert PrepareForUpdate(q, stringify).options == NullValue;
    }
  }

  /** What one `createQuestion` call sends to the backend (`None`: no call
      is made) and what it returns (`None`: `null`). */
  datatype CreateCall = CreateCall(sent: Option<Question>, returned: Option<Question>)

  /** `createQuestion`. `response` is the backend's answer: `Some(id)` when
      the document was created under `id`, `None` when the call threw. The
      error thrown for a missing topic is caught by the method itself, so an
      empty topic makes no call and returns `null`. */
  function CreateQuestion(q: Question, parse: string -> Parsed, stringify: seq<AnswerOption> -> string,
                          response: Option<string>): (c: CreateCall)
    ensures c.sent.None? <==> q.topic == ""
    ensures c.sent.Some? ==> c.sent.value == PrepareForSave(q, stringify)
    ensures c.returned.Some? <==> q.topic != "" && response.Some?
  {
    var saved := PrepareForSave(q, stringify);
    if saved.topic == "" then CreateCall(None, None)
    else
      match response
      case None => CreateCall(Some(saved), None)
      case Some(id) => CreateCall(Some(saved), Some(ParseQuestionOptions(saved.(id := Some(id)), parse)))
  }

  /** Saving and loading a question with parsed options gives them back with
      their ids normalised, when `stringify` and `parse` are inverse. */
  lemma CreatedQuestionKeepsOptions(q: Question, parse: string -> Parsed,
                                    stringify: seq<AnswerOption> -> string, id: string)
    requires RoundTrips(parse, stringify)
    requires q.topic != "" && q.parsedOptions.Some?
    ensures CreateQuestion(q, parse, stringify, Some(id)).returned
            == Some(q.(id := Some(id), options := Stored(stringify(q.parsedOptions.value)),
                       parsedOptions := Some(NormaliseIds(q.parsedOptions.value))))
  {
    var os := q.parsedOptions.value;
    assert parse(stringify(os)) == ParsedList(os) && stringify(os) != "";
  }

  /** The same for a question whose options are already a serialised array,
      as the bulk page sends them. */
  lemma CreatedFromStringKeepsOptions(q: Question, parse: string -> Parsed,
                                      stringify: seq<AnswerOption> -> string, id: string, os: seq<AnswerOption>)
    requires RoundTrips(parse, stringify)
    requires q.topic != "" && q.parsedOptions.None? && q.options == Stored(stringify(os))
    ensures CreateQuestion(q, parse, stringify, Some(id)).returned
            == Some(q.(id := Some(id), parsedOptions := Some(NormaliseIds(os))))
  {
    assert parse(stringify(os)) == ParsedList(os) && stringify(os) != "";
  }

  // ---------------------------------------------------------------------
  // createBulkQuestions

  /** One element of the list `createBulkQuestions` receives. */
  datatype BulkItem = BulkItem(text: string, options: seq<AnswerOption>, explanation: string,
                               topicId: string, difficulty: Difficulty)

  const BatchSize: nat := 10

  function Min(a: int, b: int): int
  {
    if a <= b then a else b
  }

  /** Ids set to the 1-based position, whatever they were. */
  function Renumbered(os: seq<AnswerOption>): (r: seq<AnswerOption>)
    ensures |r| == |os|
  {
    seq(|os|, j requires 0 <= j < |os| => os[j].(id := NatToString(j + 1)))
  }

  /** Loading renumbered options normalises nothing: numerals are not legacy ids. */
  lemma RenumberedSurvivesLoading(os: seq<AnswerOption>)
    ensures NormaliseIds(Renumbered(os)) == Renumbered(os)
  {
    forall j | 0 <= j < |os| ensures NormaliseIds(Renumbered(os))[j] == Renumbered(os)[j] {
      NumeralIsNotLegacy(j + 1);
    }
  }

  /** The argument of the `createQuestion` call made for one bulk item. */
  function BulkDraft(item: BulkItem, stringify: seq<AnswerOption> -> string): Question
  {
    Question(None, item.topicId, item.text, Stored(stringify(Renumbered(item.options))), None,
             item.difficulty, Some(item.explanation))
  }

  function Drafts(items: seq<BulkItem>, stringify: seq<AnswerOption> -> string): (ds: seq<Question>)
    ensures |ds| == |items|
  {
    seq(|items|, j requires 0 <= j < |items| => BulkDraft(items[j], stringify))
  }

  lemma DraftsOfSlice(items: seq<BulkItem>, stringify: seq<AnswerOption> -> string, i: nat, j: nat)
    requires i <= j <= |items|
    ensures Drafts(items[i..j], stringify) == Drafts(items, stringify)[i..j]
  {
  }

  /** The slices `[i, min(i + 10, n))` for i = 0, 10, 20, ... */
  function Batches<T>(xs: seq<T>): (bs: seq<seq<T>>)
    ensures |bs| == (|xs| + BatchSize - 1) / BatchSize
  {
    seq((|xs| + BatchSize - 1) / BatchSize,
        b requires 0 <= b < (|xs| + BatchSize - 1) / BatchSize =>
          xs[b * BatchSize .. Min(b * BatchSize + BatchSize, |xs|)])
  }

  function Flatten<T>(bs: seq<seq<T>>): seq<T>
  {
    if bs == [] then [] else Flatten(bs[..|bs| - 1]) + bs[|bs| - 1]
  }

  /** Batches are non-empty and hold at most 10 items; all but the last hold
      exactly 10. */
  lemma BatchSizes<T>(xs: seq<T>)
    ensures forall b :: 0 <= b < |Batches(xs)| ==> 1 <= |Batches(xs)[b]| <= BatchSize
    ensures forall b :: 0 <= b < |Batches(xs)| - 1 ==> |Batches(xs)[b]| == BatchSize
  {
  }

  /** Concatenating the first `k` batches gives the first `10k` items (or all
      of them). */
  lemma {:induction false} FlattenPrefix<T>(xs: seq<T>, k: nat)
    requires k <= |Batches(xs)|
    ensures Flatten(Batches(xs)[..k]) == xs[..Min(k * BatchSize, |xs|)]
  {
    var bs := Batches(xs);
    if k > 0 {
      FlattenPrefix(xs, k - 1);
      assert bs[..k][..k - 1] == bs[..k - 1];
      assert bs[..k][k - 1] == xs[(k - 1) * BatchSize .. Min(k * BatchSize, |xs|)];
      assert xs[..Min((k - 1) * BatchSize, |xs|)] == xs[..(k - 1) * BatchSize];
      assert xs[..(k - 1) * BatchSize] + xs[(k - 1) * BatchSize .. Min(k * BatchSize, |xs|)]
             == xs[..Min(k * BatchSize, |xs|)];
    }
  }

  /** The batches partition the input in order. */
  lemma BatchesPartition<T>(xs: seq<T>)
    ensures Flatten(Batches(xs)) == xs
  {
    var bs := Batches(xs);
    FlattenPrefix(xs, |bs|);
    assert bs[..|bs|] == bs;
  }

  /** The loop of `createBulkQuestions`: it steps `i` by 10 and sends, per
      batch, one `createQuestion` call per item with renumbered options. The
      result is the list of batches of call arguments. */
  method CreateBulkQuestions(items: seq<BulkItem>, stringify: seq<AnswerOption> -> string)
    returns (batches: seq<seq<Question>>)
    ensures batches == Batches(Drafts(items, stringify))
  {
    var n := |items|;
    batches := [];
    var i := 0;
    while i < n
      invariant i == |batches| * BatchSize
      invariant |batches| <= (n + BatchSize - 1) / BatchSize
      invariant batches == Batches(Drafts(items, stringify))[..|batches|]
    {
      var batch := items[i .. Min(i + BatchSize, n)];
      var drafts := Drafts(batch, stringify);
      DraftsOfSlice(items, stringify, i, Min(i + BatchSize, n));
      batches := batches + [drafts];
      i := i + BatchSize;
    }
    assert |batches| == (n + BatchSize - 1) / BatchSize;
  }
}
