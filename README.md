# gk_learning — a Dafny model of the quiz logic

gk_learning is a Next.js quiz application backed by Appwrite. Administrators
add questions one at a time or paste many at once. Learners take timed
tests, play a question/answer matching game and review the questions they
have not yet mastered. Their progress is tracked per question.

This project models the logic behind those screens. The rendering and the
backend calls are left out. Each module follows one source file:

| module (file) | source | form |
|---|---|---|
| `Types` (types.dfy) | src/types/index.ts | datatypes for questions, options, topics and progress records |
| `Text` (text.dfy) | JavaScript string built-ins | `trim`, `toLowerCase`, `String(n)`, `indexOf` as functions |
| `Lists` (lists.dfy) | `Array.prototype.filter` | an order-preserving filter and its laws |
| `BulkSplit`, `BulkParser`, `BulkParserProps`, `BulkReview` | src/app/admin/questions/bulk-add/page.tsx | the block split, the per-line section machine (methods with loops proved equal to a specification function), its properties, and the review/submit page as a class |
| `Progress` | src/services/progressService.ts | the mastery-level transition, as pure functions |
| `QuestionService` | src/services/questionService.ts | option-id normalisation, save/update preparation, the create guard, and bulk batching (a loop) |
| `Distractors` | the enrichment loops of src/app/test/page.tsx and src/components/QuestionCard.tsx | the loop that borrows up to three wrong answers |
| `TestFlow` | src/app/test/page.tsx | test start, scoring, progress reports, and the page state as a class |
| `Game` | src/app/game/page.tsx | deck construction, `formatTime`, and the card state machine as a class |
| `QuestionCardView` | src/components/QuestionCard.tsx | the option source, enrichment, answer checking, option styling, and the card as a class |
| `Review` | src/app/review/page.tsx | review-list assembly (a loop), the screens, and the session counters as a class |
| `Manage` | src/app/admin/questions/manage/page.tsx | the topic/search filter, delete-from-list and topic names |
| `AddForm` | src/app/admin/questions/add/page.tsx | the submit checks, blank-option cleanup, and the form as a class |

Modelling conventions:
- `JSON.parse` and `JSON.stringify` are function parameters, `parse` and
  `stringify`. Where a property needs them to be inverse, a lemma requires
  `RoundTrips(parse, stringify)`.
- Every `Math.random` shuffle is modelled as the identity: the input order is kept.
- A backend call is a parameter holding what the call returned. For example,
  `fetch` is `getQuestionById`, `response` is the created document's id or
  `None`, and `store` is the progress collection.
- The clock is a `now` parameter.
- React state updates are methods on classes whose fields are the page's `useState` variables.
- The TypeScript `Option` record is `AnswerOption`; `Option<T>` is the maybe type.
- An option list that is a string, an array, `null` or missing is the `OptionsField` datatype.

The bulk parser works with fixed patterns, written here as character predicates:
- The split is on digits with optional spaces and then `.`, `)` or `:`, or on
  `Q:` / `Question:`.
- Options are `A)`–`D)` or `(a)`–`(d)`.
- Explanations start with `Explanation:` or `Exp:`.

The parser also has these behaviours, which the model keeps as they are:
- Every option line that carries `(correct)` or `✓` is marked correct, so
  several options can be correct.
- Only the first occurrence of a marker is cut from the option text.
- Blank pieces of the split are dropped. No block is dropped after parsing,
  even one with empty text and no options.
- Submit rejects the first question whose correct count is not exactly one.
  It does not change the flags.
- Block 0 always loses its question text, because the split has already
  consumed the question marker that the first-line test looks for.
- An option line after an explanation switches the section back to options.
- The case-insensitive option branch is unreachable.

## Model

| member | source | states |
|---|---|---|
| Types.CorrectCount | src/app/admin/questions/bulk-add/page.tsx:176-177 | the number of correct options is at most the number of options, and is zero exactly when no option is marked correct |
| Types.FindById | src/components/QuestionCard.tsx:139 | an option is found exactly when some option has the id, and it is the first such option |
| Text.Trim | src/app/admin/questions/bulk-add/page.tsx:53 | trimming yields the empty string exactly when the text is all white space; otherwise neither end of the result is white space |
| Text.TrimIsSlice | src/app/admin/questions/bulk-add/page.tsx:53 | the trimmed text is a contiguous slice of the original |
| Text.ToLower | src/app/admin/questions/manage/page.tsx:70-76 | lower-casing keeps the length and maps exactly the capitals A–Z to a–z |
| Lists.Keep | src/app/admin/questions/manage/page.tsx:61-79 | an element is kept exactly when it is in the list and satisfies the condition |
| Lists.KeepIsSubsequence | src/app/admin/questions/manage/page.tsx:62-78 | the kept list is an order-preserving subsequence: each kept element sits at a strictly increasing index of the input |
| Lists.KeepKeep | src/app/admin/questions/manage/page.tsx:65-76 | two filters in a row are one filter by both conditions |
| Lists.KeepEverything | src/app/admin/questions/manage/page.tsx:61-79 | a filter that every element passes returns the list unchanged |
| BulkSplit.NonBlank | src/app/admin/questions/bulk-add/page.tsx:50 | a piece survives the blank filter exactly when its trim is non-empty |
| BulkSplit.FirstDelimiterIsLeftmost | src/app/admin/questions/bulk-add/page.tsx:50 | no delimiter starts before the first one found |
| BulkSplit.SplitPiecesAreDelimiterFree | src/app/admin/questions/bulk-add/page.tsx:50 | no piece of the split contains a delimiter: every delimiter occurrence is consumed |
| BulkSplit.BlockLinesAreDelimiterFree | src/app/admin/questions/bulk-add/page.tsx:50-53 | no trimmed line of any block contains a delimiter |
| BulkSplit.TrimAndDropEmpty | src/app/admin/questions/bulk-add/page.tsx:53 | every line kept is non-empty |
| BulkSplit.NonBlankBlockHasLines | src/app/admin/questions/bulk-add/page.tsx:50-53 | a block that is not blank has at least one line |
| BulkParser.FirstMarker | src/app/admin/questions/bulk-add/page.tsx:96 | the position found is the leftmost occurrence of a correct-answer marker, or the end of the text |
| BulkParser.ExplanationHeaderLength | src/app/admin/questions/bulk-add/page.tsx:99 | a line is an explanation header exactly when it starts with "Explanation:" or "Exp:" (case-sensitive) |
| BulkParser.ProcessLine | src/app/admin/questions/bulk-add/page.tsx:80-129 | one iteration of the line loop is the transition of the section machine on the line's classification |
| BulkParser.ProcessLines | src/app/admin/questions/bulk-add/page.tsx:80-129 | the loop over a block's lines after the first ends in the state the section machine reaches over those lines |
| BulkParser.ParseBlock | src/app/admin/questions/bulk-add/page.tsx:52-143 | parsing a block yields the block's specified question: text, options, explanation and number |
| BulkParser.ParseNextBlock | src/app/admin/questions/bulk-add/page.tsx:52-143 | one step of the `map` over blocks extends the parsed prefix by the next block's question |
| BulkParser.ParseQuestions | src/app/admin/questions/bulk-add/page.tsx:48-145 | the parser's output is the specified parse of the pasted text |
| BulkParserProps.OneQuestionPerBlock | src/app/admin/questions/bulk-add/page.tsx:50-52 | one question per non-blank piece of the split, in order, and the k-th question is the parse of the k-th block |
| BulkParserProps.FirstLineHasNoMarker | src/app/admin/questions/bulk-add/page.tsx:63-78 | the first line of every block has no question marker, so the first-line marker test never matches |
| BulkParserProps.FirstBlockLosesText | src/app/admin/questions/bulk-add/page.tsx:63-78 | the first question always has empty text and an empty original number |
| BulkParserProps.LaterBlockNumbered | src/app/admin/questions/bulk-add/page.tsx:63-78 | a later block k gets number "k+1." and its text starts with the block's first line |
| BulkParserProps.ClassifyLine | src/app/admin/questions/bulk-add/page.tsx:84-103 | a line is an option line exactly when it matches the option pattern, and it is then marked exactly when it carries a marker; a header is an explanation line exactly when it is not an option line; any other line is kept as it is |
| BulkParserProps.LooseOptionLineIsOptionLine | src/app/admin/questions/bulk-add/page.tsx:104-117 | every line the case-insensitive branch matches was already taken by the option branch, so that branch is unreachable |
| BulkParserProps.OptionLineAlwaysAddsOption | src/app/admin/questions/bulk-add/page.tsx:84-98 | an option line, in any section, appends exactly one option numbered next, marked iff the line has a marker, and moves to the options section without touching text or explanation |
| BulkParserProps.ExplanationHeaderReplaces | src/app/admin/questions/bulk-add/page.tsx:99-101 | an explanation header replaces the explanation, whatever it was, with text shorter than the line, and enters the explanation section |
| BulkParserProps.ContinuationKeepsOptions | src/app/admin/questions/bulk-add/page.tsx:118-127 | a plain line in the options section appends to the last option's text, or to the question text when there is no option, and never adds, renumbers or re-marks options |
| BulkParserProps.TextOnlyGrows | src/app/admin/questions/bulk-add/page.tsx:118-127 | the question text only ever grows: the initial text is a prefix of the final one |
| BulkParserProps.OptionsFollowOptionLines | src/app/admin/questions/bulk-add/page.tsx:84-98 | the options are numbered "1".."n" in line order, with one flag per option line, and a marker was seen exactly when some flag is set |
| BulkParserProps.BlockOptions | src/app/admin/questions/bulk-add/page.tsx:84-136 | a block's options correspond one-to-one to its option lines, with ids "1".."n" and the correct flags as marked, or the first one defaulted when none was marked |
| BulkParserProps.FinishDefaultsFirst | src/app/admin/questions/bulk-add/page.tsx:134-136 | when no option line was marked, option 1 becomes correct and the others stay as parsed |
| BulkParserProps.ParsedQuestionHasCorrectOption | src/app/admin/questions/bulk-add/page.tsx:132-136 | a parsed question has a correct option exactly when it has any option |
| BulkParserProps.MarkerFoundIffHasMarker | src/app/admin/questions/bulk-add/page.tsx:88 | the marker search finds a position exactly when the text contains "(correct)" or "✓" |
| BulkParserProps.StripWithoutMarker | src/app/admin/questions/bulk-add/page.tsx:96 | text without a marker is stored unchanged |
| BulkParserProps.StripRemovesLeftmost | src/app/admin/questions/bulk-add/page.tsx:96 | only the leftmost marker, with the white space before it, is cut out, and the text gets shorter |
| BulkParserProps.BlockWithoutHeaderHasNoExplanation | src/app/admin/questions/bulk-add/page.tsx:141 | a block with no explanation header has an undefined explanation |
| BulkReview.MarkOnly | src/app/admin/questions/bulk-add/page.tsx:153-162 | exactly the chosen option is correct afterwards; ids and texts are unchanged |
| BulkReview.MarkOnlyHasOneCorrect | src/app/admin/questions/bulk-add/page.tsx:153-162 | after choosing, the question has exactly one correct option |
| BulkReview.MarkingMakesAcceptable | src/app/admin/questions/bulk-add/page.tsx:153-181 | choosing a correct option makes any question with options pass the submit checks |
| BulkReview.FirstProblem | src/app/admin/questions/bulk-add/page.tsx:171-181 | the error names the first (1-based) question with no options or a correct count other than one, and there is no error exactly when every question is acceptable |
| BulkReview.SubmitCheck | src/app/admin/questions/bulk-add/page.tsx:164-181 | a missing topic is reported first; submission passes exactly when there is a topic and every question is acceptable |
| BulkReview.CheckSubmission | src/app/admin/questions/bulk-add/page.tsx:164-181 | the indexed validation loop with early returns computes the submit check |
| BulkReview.SubmittedQuestionReloads | src/app/admin/questions/bulk-add/page.tsx:188-196 | a submitted question, read back, has exactly the options that were reviewed |
| BulkReview.BulkAddPage.constructor | src/app/admin/questions/bulk-add/page.tsx:24-28 | the page starts with empty text, no questions, no preview, no error |
| BulkReview.BulkAddPage.ParsePreview | src/app/admin/questions/bulk-add/page.tsx:147-151 | the preview shows the parse of the current text |
| BulkReview.BulkAddPage.SetCorrectOption | src/app/admin/questions/bulk-add/page.tsx:153-162 | only the chosen question changes, and in it only the correct flags |
| BulkReview.BulkAddPage.Submit | src/app/admin/questions/bulk-add/page.tsx:164-211 | a failed check makes no create call, sets the error and changes nothing else; a passing one creates one question per parsed question, in order, and clears the page |
| Progress.LevelForStreak | src/services/progressService.ts:68-75 | mastered iff the streak is at least 5, review iff 3–4, learning iff 1–2, and no level below 1 |
| Progress.FirstAttempt | src/services/progressService.ts:88-98 | a new record belongs to the user and question and records the answer and the time |
| Progress.NextAttempt | src/services/progressService.ts:54-78 | an update keeps the pair, counts one more attempt, and records the answer and the time; a wrong answer resets the streak and gives learning; a right one extends the streak, a missing streak counting as 0 |
| Progress.FirstAttemptLevel | src/services/progressService.ts:89-98 | a first attempt counts one attempt, with a streak of 1 and learning if correct, otherwise 0 and new |
| Progress.CorrectAnswerLevel | src/services/progressService.ts:56-75 | after a correct answer the level follows the new streak: mastered from 5, review at 3–4, learning at 1–2 |
| Progress.UpdateIsNeverNew | src/services/progressService.ts:68-78 | an update never produces the new level |
| Progress.FirstAttemptIsConsistent | src/services/progressService.ts:95-96 | a new record's streak does not exceed its attempt count |
| Progress.NextAttemptKeepsConsistent | src/services/progressService.ts:56-64 | every update keeps the streak within the attempt count |
| Progress.CorrectRunExtendsStreak | src/services/progressService.ts:56-58 | a run of correct answers adds its length to both the streak and the attempt count |
| Progress.FiveCorrectMaster | src/services/progressService.ts:68-75 | five or more correct answers in a row reach mastered |
| Progress.FindProgress | src/services/progressService.ts:6-25 | the record found is the first one for the user and question; none is found exactly when no record matches |
| Progress.RecordAnswer | src/services/progressService.ts:43-113 | an existing record is updated in place; otherwise a first-attempt record is appended |
| Progress.RecordAnswerKeepsStore | src/services/progressService.ts:43-113 | recording an answer keeps one record per user and question, and every record consistent |
| Progress.ReviewIdsMembers | src/services/progressService.ts:116-130 | a question is due exactly when the user has a record for it at learning or review |
| QuestionService.NormaliseIds | src/services/questionService.ts:205-214 | normalising keeps the count, texts and flags, and changes an id only to the option's 1-based position |
| QuestionService.NormalisedIdsAreCurrent | src/services/questionService.ts:205-214 | no id keeps the legacy "option-" prefix, and options without it are unchanged |
| QuestionService.NormaliseIdsIdempotent | src/services/questionService.ts:205-214 | normalising twice is normalising once |
| QuestionService.ParseQuestionOptions | src/services/questionService.ts:199-224 | only the parsed options change, and only for a non-empty stored string: the normalised list, or [] when the parse fails or is not a list |
| QuestionService.PrepareForSave | src/services/questionService.ts:227-243 | only the options fields change: parsed options are serialised and removed, and stored strings are kept |
| QuestionService.PrepareForSaveIdempotent | src/services/questionService.ts:227-243 | preparing a prepared question changes nothing |
| QuestionService.PrepareForUpdate | src/services/questionService.ts:246-262 | only the options fields change, parsed options are removed, and absent or falsy options are left alone |
| QuestionService.UpdateMatchesSaveExceptNull | src/services/questionService.ts:246-262 | update preparation agrees with save preparation exactly unless the options are null and nothing is parsed |
| QuestionService.CreateQuestion | src/services/questionService.ts:125-159 | no create call is made exactly when the topic is empty; otherwise the prepared question is sent; a question is returned exactly when one was sent and the backend answered |
| QuestionService.CreatedQuestionKeepsOptions | src/services/questionService.ts:125-159 | a created question read back carries its options, normalised |
| QuestionService.CreatedFromStringKeepsOptions | src/services/questionService.ts:125-159 | a question created from serialised options reads back the normalised options |
| QuestionService.RenumberedSurvivesLoading | src/services/questionService.ts:290-295 | ids renumbered "1".."k" by position survive normalisation on loading |
| QuestionService.Batches | src/services/questionService.ts:282-287 | there are ⌈n/10⌉ batches |
| QuestionService.BatchSizes | src/services/questionService.ts:282-287 | each batch has 1 to 10 items, and all but the last have exactly 10 |
| QuestionService.BatchesPartition | src/services/questionService.ts:282-287 | the batches, concatenated, are the input in order |
| QuestionService.CreateBulkQuestions | src/services/questionService.ts:265-320 | the batching loop sends the drafts in batches of 10 |
| Distractors.CollectDistractors | src/app/test/page.tsx:133-157 | the nested loop with breaks collects the first three wrong-answer texts of the pool, labelled in collection order |
| Distractors.BorrowedOptions | src/app/test/page.tsx:127-163 | at most three options are borrowed, as many as the pool offers up to three; each is incorrect, has id "additional-k" in order, and takes its text from another question's incorrect option |
| Distractors.EnrichKeepsCurrent | src/app/test/page.tsx:160-166 | enrichment keeps the current options first and in order, adds at most three, and adds no correct option |
| TestFlow.ParseOptions | src/app/test/page.tsx:245-268 | arrays get normalised ids; null and missing values are not lists |
| TestFlow.ParseOptionsAgreesWithService | src/app/test/page.tsx:245-268 | the page's parse of a stored string is a list exactly when the JSON parse succeeds, and agrees with the service's normalisation then |
| TestFlow.TestPool | src/app/test/page.tsx:115-119 | a question can lend options exactly when it is not the current one and has options |
| TestFlow.EnrichOptions | src/app/test/page.tsx:108-172 | the page's enrichment is the shared enrichment over the pool's option lists |
| TestFlow.PrepareTestQuestion | src/app/test/page.tsx:73-91 | each selected question is prepared as specified |
| TestFlow.StartTest | src/app/test/page.tsx:48-105 | starting a test computes the specified outcome |
| TestFlow.StartedTest | src/app/test/page.tsx:62-91 | a started test has min(requested, available) questions, each unchanged except for its options: these are the parsed options, or, for a single option, that option first, at most three additions and the same correct count |
| TestFlow.StartErrors | src/app/test/page.tsx:48-70 | no-topic error exactly when no topic is chosen; no-questions error exactly when a topic is chosen and nothing is requested or available |
| TestFlow.ScoreBounds | src/app/test/page.tsx:181-200 | the score is at most the number answered, which is at most the number of questions |
| TestFlow.BorrowedNeverScores | src/app/test/page.tsx:181-200 | choosing a borrowed "additional-" option never scores |
| TestFlow.CalculateScore | src/app/test/page.tsx:181-200 | the accumulating loop computes the specified score |
| TestFlow.ReportsMatchScore | src/app/test/page.tsx:209-233 | the answers reported as correct are exactly the ones the score counts, and one report is sent per answered question |
| TestFlow.ApplyReportsKeepsStore | src/app/test/page.tsx:209-233 | reporting a test's answers keeps one record per user and question, and every record consistent |
| TestFlow.ReportProgress | src/app/test/page.tsx:202-235 | the submit loop records each answered question's verdict in order |
| TestFlow.TestSession.constructor | src/app/test/page.tsx:17-25 | a session starts empty, with no selections, no results and score 0 |
| TestFlow.TestSession.Start | src/app/test/page.tsx:48-105 | an error leaves the session and reports the error; a start installs the selected questions at index 0, with no selections or results |
| TestFlow.TestSession.Select | src/app/test/page.tsx:174-179 | the selection for the current index is set; the questions, index, results, score and error are unchanged |
| TestFlow.TestSession.Previous | src/app/test/page.tsx:315 | the index goes back one, stopping at 0; the questions, selections, results, score and error are unchanged |
| TestFlow.TestSession.Next | src/app/test/page.tsx:322-329 | the index advances by one while a next question exists; the questions, selections, results, score and error are unchanged |
| TestFlow.TestSession.Submit | src/app/test/page.tsx:202-235 | results are shown with the specified score, and progress is recorded only for a signed-in user; the questions, index, selections and error are unchanged |
| TestFlow.TestSession.Restart | src/app/test/page.tsx:237-242 | the questions, selections and results are cleared and the index returns to 0; the score and error are kept |
| Game.OfDifficulty | src/app/game/page.tsx:141-146 | a question is kept exactly when it has the chosen difficulty |
| Game.GamePoolEnough | src/app/game/page.tsx:141-153 | the pool has enough questions exactly when the topic has; the filtered set is used if it is large enough, else all topic questions |
| Game.FirstCorrect | src/app/game/page.tsx:179 | the answer is the first correct option, and there is none exactly when no option is correct |
| Game.DeckBuilt | src/app/game/page.tsx:160-191 | a deck is built exactly when every question's options can be read |
| Game.DeckSize | src/app/game/page.tsx:160-191 | the deck has two cards per question |
| Game.DeckFresh | src/app/game/page.tsx:160-191 | every card starts unmatched and unselected |
| Game.DeckShape | src/app/game/page.tsx:160-191 | question i contributes a question card and an answer card that match each other |
| Game.DeckDistinct | src/app/game/page.tsx:160-191 | card ids are distinct when the questions' ids are |
| Game.BuildDeck | src/app/game/page.tsx:160-191 | the card-pushing loop builds the specified deck |
| Game.Deal | src/app/game/page.tsx:127-208 | starting a game computes the specified outcome |
| Game.RemovePair | src/app/game/page.tsx:100-104 | a card remains exactly when it is neither card of the pair |
| Game.RemovePairKeepsPairs | src/app/game/page.tsx:86-106 | removing a matched pair removes exactly two cards and keeps ids distinct |
| Game.SelectionCleared | src/app/game/page.tsx:107-123 | after the pair is removed or deselected, no card is selected |
| Game.FormatTimeRoundTrip | src/app/game/page.tsx:269-273 | reading the minutes and seconds back gives minutes·60 + seconds = t |
| Game.FormatTimeWidth | src/app/game/page.tsx:269-273 | the text is five characters long exactly when t < 6000 |
| Game.ClickKeepsConsistent | src/app/game/page.tsx:210-242 | a click keeps at most two distinct selected cards, each in the deck and flagged as selected |
| Game.PairRemovedConsistent | src/app/game/page.tsx:86-106 | removing a matched pair keeps the game consistent and keeps every remaining card paired |
| Game.PairDeselectedConsistent | src/app/game/page.tsx:107-118 | deselecting an unmatched pair keeps the game consistent and every card paired |
| Game.DealtDeck | src/app/game/page.tsx:160-201 | a fresh deck is consistent and, with distinct question ids, made of whole pairs |
| Game.StartDealsValid | src/app/game/page.tsx:127-208 | a started game is consistent, and made of whole pairs when the chosen questions have distinct ids |
| Game.MemoryGame.constructor | src/app/game/page.tsx:30-38 | the game starts empty, not started, with five pairs |
| Game.MemoryGame.SetPairCount | src/app/game/page.tsx:339-345 | only the pair count changes |
| Game.MemoryGame.Start | src/app/game/page.tsx:127-208 | an error leaves the game and reports the error; a start deals the specified deck with a cleared timer |
| Game.MemoryGame.Click | src/app/game/page.tsx:210-242 | a click on a matched card or with two selected is ignored; clicking the sole selected card deselects it; otherwise the card is selected |
| Game.MemoryGame.PairEffect | src/app/game/page.tsx:86-97 | a matching pair is marked matched at once; nothing else changes |
| Game.MemoryGame.TimersFire | src/app/game/page.tsx:98-123 | the delayed effects remove a matched pair or deselect an unmatched one, and clear the selection |
| Game.MemoryGame.CheckCompletion | src/app/game/page.tsx:73-77 | the game is completed exactly when it has started and the deck is empty |
| Game.MemoryGame.Tick | src/app/game/page.tsx:58-70 | the timer advances only while the game runs |
| Game.MemoryGame.Reset | src/app/game/page.tsx:244-250 | the game returns to the not-started state with an empty deck |
| Game.MemoryGame.MatchedPairs | src/app/game/page.tsx:434 | the matched-pair count is between 0 and the pair count, and accounts for every removed card |
| QuestionCardView.DisplayedOptions | src/components/QuestionCard.tsx:24-25 | parsed options are shown if present; otherwise the parsed string, or [] when there is none |
| QuestionCardView.LoadedQuestionRenders | src/components/QuestionCard.tsx:24-25 | a question loaded by the service always renders, with its normalised options or [] |
| QuestionCardView.CardPool | src/components/QuestionCard.tsx:57-61 | a question can lend options exactly when it is another question with parsed options |
| QuestionCardView.EnrichCardOptions | src/components/QuestionCard.tsx:48-124 | the card's enrichment is the specified enrichment, and falls back to the originals on a failed fetch |
| QuestionCardView.CardEnrichmentBorrows | src/components/QuestionCard.tsx:48-124 | the originals stay first; at most three incorrect "additional-k" options are added, each taken from a lending question's incorrect option |
| QuestionCardView.AnswerCorrectIffOriginalCorrect | src/components/QuestionCard.tsx:139-142 | an answer is correct exactly when the selected id is an original option marked correct |
| QuestionCardView.StylesPartition | src/components/QuestionCard.tsx:166-185 | each option gets exactly one class: before submission selected or idle; after it green for an original correct option, red for another selected one, dimmed otherwise |
| QuestionCardView.StyleAgreesWithVerdict | src/components/QuestionCard.tsx:166-185 | the chosen option is green exactly when the answer is judged correct, and red exactly when it is not |
| QuestionCardView.BorrowedNeverGreen | src/components/QuestionCard.tsx:166-185 | a borrowed option is never green, and is red when chosen |
| QuestionCardView.QuestionCard.constructor | src/components/QuestionCard.tsx:15-21 | the card starts with no selection, not submitted and not loading |
| QuestionCardView.QuestionCard.Show | src/components/QuestionCard.tsx:28-45 | the displayed options are installed, enriched only when there is exactly one; an unreadable question leaves the card unchanged |
| QuestionCardView.QuestionCard.Select | src/components/QuestionCard.tsx:126-130 | a selection is ignored after submission |
| QuestionCardView.QuestionCard.Submit | src/components/QuestionCard.tsx:132-164 | nothing happens with no selection, after submission or while loading; otherwise the verdict is recorded, progress is updated for a signed-in user, and completion is reported |
| Review.ReviewList | src/app/review/page.tsx:42-54 | the list has at most one question per id |
| Review.LoadReviewList | src/app/review/page.tsx:42-54 | the fetch loop builds the specified review list |
| Review.ReviewListMembers | src/app/review/page.tsx:42-54 | a question is listed exactly when the lookup of one of the ids returned it |
| Review.ReviewListInOrder | src/app/review/page.tsx:42-54 | when every lookup succeeds, the list holds the questions in id order |
| Review.ScreenOf | src/app/review/page.tsx:79-218 | the no-review screen shows exactly for an empty list, the completed screen exactly when every question is answered, and otherwise the current question, numbered from 1 |
| Review.ReviewSession.Screen | src/app/review/page.tsx:205-218 | the question shown is the next unanswered one |
| Review.ReviewSession.constructor | src/app/review/page.tsx:13-19 | a session starts loading, with nothing answered |
| Review.ReviewSession.Load | src/app/review/page.tsx:21-64 | nothing is loaded when the user is not signed in; a signed-in user gets the questions of their due records |
| Review.ReviewSession.Complete | src/app/review/page.tsx:66-76 | one more answer counts, one more correct iff correct, the index advances only below the last question, and the completed screen shows exactly when all are answered |
| Manage.FilteredIsOneFilter | src/app/admin/questions/manage/page.tsx:61-79 | the chained topic and search filters are one filter by the shown condition |
| Manage.FilteredQuestions | src/app/admin/questions/manage/page.tsx:61-79 | a question is listed exactly when it has the selected topic, if any, and matches a non-blank search, in the loaded order |
| Manage.SearchIgnoresCase | src/app/admin/questions/manage/page.tsx:70-76 | search terms that lower-case alike list the same questions |
| Manage.DeleteConfirm | src/app/admin/questions/manage/page.tsx:92-117 | a success shows the success message and keeps the error; a failure keeps the list and any success message still shown, and sets an error |
| Manage.DeleteRemovesExactly | src/app/admin/questions/manage/page.tsx:92-117 | a successful delete removes exactly the questions with that id and keeps the order; a failed one keeps the list and the success message, and reports an error |
| Manage.TopicName | src/app/admin/questions/manage/page.tsx:131-134 | the name of the first topic with the id, or the id itself if no topic has it |
| AddForm.FirstChecks | src/app/admin/questions/add/page.tsx:73-90 | the topic, text and option checks never report a correct-count error |
| AddForm.Created | src/app/admin/questions/add/page.tsx:101-110 | the created question has the form's topic, text and difficulty, and the serialised cleaned options |
| AddForm.CheckCases | src/app/admin/questions/add/page.tsx:66-101 | each error shows exactly when the earlier checks pass and its own fails, with the correct count taken over the cleaned options |
| AddForm.CleanedOptions | src/app/admin/questions/add/page.tsx:101 | the saved options are exactly the non-blank ones, in their original order |
| AddForm.CheckedQuestionHasOneCorrect | src/app/admin/questions/add/page.tsx:93-107 | an accepted form saves its first option and exactly one correct option |
| AddForm.CheckAgreesWithoutBlanks | src/app/admin/questions/add/page.tsx:93-101 | without blank options, the corrected check agrees with the check as written |
| AddForm.AsWrittenSavesNoCorrect | src/app/admin/questions/add/page.tsx:93-101 | the check as written accepts a form whose saved question has no correct option |
| AddForm.Appended | src/app/admin/questions/add/page.tsx:138-140 | adding an option keeps the existing ones and appends one |
| AddForm.NumberingKept | src/app/admin/questions/add/page.tsx:138-140 | the default form is numbered "1".., and adding or removing the last option keeps that numbering |
| AddForm.RemoveThenAddRepeatsId | src/app/admin/questions/add/page.tsx:138-140 | removing the first of three options and adding one repeats the id "3" |
| AddForm.QuestionForm.constructor | src/app/admin/questions/add/page.tsx:31-41 | the form starts with the defaults: one empty, correct option with id "1" |
| AddForm.QuestionForm.AddOption | src/app/admin/questions/add/page.tsx:138-140 | one option is appended and nothing else changes |
| AddForm.QuestionForm.RemoveOption | src/app/admin/questions/add/page.tsx:270-273 | the chosen option is removed, at least one is kept, and nothing else changes |
| AddForm.QuestionForm.Submit | src/app/admin/questions/add/page.tsx:66-132 | the required rules block submission; a failed check shows its message and keeps the form; an accepted form sends the created question, shows success and resets the form (with the corrected correct-count check) |

## Left out

- `JSON.parse` and `JSON.stringify` are abstract parameters. The round trip is assumed through a `RoundTrips` precondition, not proved.
- `Math.random` shuffles (src/app/test/page.tsx:63, 86, 130, 166; src/app/game/page.tsx:156, 194; src/components/QuestionCard.tsx:76, 113) keep their input order. The source promises only a permutation, and it selects the first n questions of a shuffled list.
- Distractors.EnrichKeepsCurrent: the current options coming first holds only for the input order. With the shuffle, the source promises only that the result is a permutation of the current options followed by the borrowed ones.
- QuestionCardView.CardEnrichmentBorrows: the originals coming first holds only for the input order. With the shuffle, the result is a permutation of the originals and the borrowed options.
- TestFlow.StartedTest: the test being the first min(n, available) topic questions, and each option list equal to the parsed one (or the single option first), holds only for the input order. The source promises a random selection of that size, with options that are a permutation of these.
- Game.DeckShape: cards 2i and 2i+1 hold question i's pair only for the input order. The source deals a shuffled deck of the same cards, drawn from a shuffled pool.
- Backend calls are parameters: Appwrite documents, the pagination loops in src/services/questionService.ts, topic and auth services. Their failures appear only where the page handles them, as `None` or an error outcome.
- `Promise.all` in `createBulkQuestions` is modelled as sending the batches in order. Concurrency is not modelled.
- The game's `setTimeout` effects (800/1000 ms) run as the `TimersFire` step. The `setInterval` timer is the `Tick` step. Interleavings with clicks during the delay are not modelled.
- The success-message timeouts (3000 ms) are not modelled.
- The percentage displays in src/app/test/page.tsx:359 and src/app/review/page.tsx:210 are floating point and are not modelled.
- Text.ToLower: lower-cases only ASCII capitals, where JavaScript's `toLowerCase` also handles other scripts.
- Game.MemoryGame.SetPairCount: accepts any natural number. The page's select offers only 3, 5, 8 and 10.
- QuestionCardView.DisplayedOptions: a stored string that does not parse to an array yields `None`, and the card is not shown. In the component, `JSON.parse` throws during rendering, or the value that is not an array fails later; which of these happens is not modelled.
- Load-error messages and loading flags of the test, game and review pages are not modelled beyond the error outcomes shown.
- Progress.CorrectAnswerLevel: requires a non-negative stored streak. A negative `consecutiveCorrect` cannot be produced by the code.
- Progress.UpdateIsNeverNew: requires a non-negative stored streak, for the same reason.
- Review.ReviewSession.Load: assumes a fresh session. The page runs `loadData` only once, on mount.
- Navbar, layout, the home, topics, login, debug and edit pages are not part of this model; they are rendering and navigation.
- `deleteQuestion`, `updateQuestion` and the other services' network code are represented only by their outcomes.
- AddForm.QuestionForm.Submit: runs the corrected check, which counts correct options among the saved (non-blank) options. The page counts over all options before dropping blank ones (see "## Findings"), so the page saves a form this method rejects, and the reverse. The as-written check is `AddForm.CheckAsWritten`.
- TestFlow.PrepareTestQuestion: a stored string that parses to a JSON string fails the start, like any value that is not a list. The page instead spreads the string into its characters without throwing. Parsed values are only "list", "other value" or "parse failure".
- QuestionCardView.QuestionCard.Show: runs the enrichment synchronously. The component enriches asynchronously behind an `isEnriching` guard (src/components/QuestionCard.tsx:39). If the question changes while an enrichment is in flight, the next single-option question is not enriched, and the late result then overwrites the shown options. This race is not modelled.

## Findings

| source | as written | input that shows it | evidently intended | confidence | as-written member | corrected member |
|---|---|---|---|---|---|---|
| src/app/admin/questions/add/page.tsx:93-101 | the exactly-one-correct check counts over all options, before blank options are dropped | topic "topic-1", text "Capital of France?", options ("1", "Paris", not correct) and ("2", "   ", correct): passes the required rules (which reject only ""), has one correct option, but saves only "Paris", with no correct option | count the correct options among the options that are saved | not executed | AddForm.AsWrittenSavesNoCorrect | AddForm.CheckedQuestionHasOneCorrect |
