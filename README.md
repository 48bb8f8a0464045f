# RestReveal quiz state machine and scoring, in Dafny

RestReveal is a single-page quiz. It walks the user through seven rest types
(Mental, Physical, Emotional, Social, Spiritual, Sensory, Intellectual), in
that fixed order. Each rest type has five statements, and the user rates each
one from 1 ("Not true") to 5 ("Very true"). After the last rest type, the page
shows the two rest types with the highest totals: the primary and the
secondary need.

This project models the logic of the `RestReveal` component:

- its four pieces of state (`currentStep`, `answers`, `showResults`,
  `started`);
- the handlers that change that state (start, `handleAnswer`, `nextStep`,
  `prevStep`, `restart`);
- the `canProceed` gate on the Next button;
- the `calculateResults` scoring function.

Layout:

- `catalogue.dfy` (module `Catalogue`): the shape of the content catalogue.
  It holds 7 rest types in a fixed order, 5 questions each, ratings 1 to 5,
  and a maximum score of 25. A rest type is its position in the catalogue
  (`Category`, 0 to 6).
- `answers.dfy` (module `Answers`): one rest type's answer array. A
  JavaScript array can hold three kinds of element, and the model keeps all
  three: a hole, `undefined` and a rating (`Slot`). The module covers the
  spread copy, the one-index write, both forms of the gate and the `reduce`
  sum.
- `scoring.dfy` (module `Scoring`): `calculateResults`. It totals each rest
  type, runs a stable sort by descending total (written as an insertion sort)
  and keeps the first two entries.
- `quiz_spec.dfy` (module `QuizSpec`): the component state as a value
  (`QuizState`). It also holds:
  - the view derived from the two flags (`PhaseOf`);
  - one function per handler;
  - the actions the page offers in each view (`Enabled`);
  - the invariant that every sequence of clicks keeps (`Consistent`).
- `rest_reveal.dfy` (module `RestRevealComponent`): the class `RestReveal`.
  Its fields are the four pieces of state. Its methods update those fields in
  place, and each method is proved to produce exactly the state that the
  matching `QuizSpec` function gives.

How JavaScript array semantics are captured:

- Writing index `i` past the end extends the array to length `i + 1`. The
  indices in between become holes (`Answers.Written`).
- The spread copy `[...a]` reads every hole as `undefined` (`Answers.Spread`).
- `every` skips holes. It fails on `undefined`, because `undefined >= 1` is
  false (`Answers.PassesAsWritten`).
- `reduce` skips holes (`Answers.Total`).

The handlers do no checks of their own; the page's controls do the gating:

- `handleAnswer` does not reject a rating outside 1 to 5. It stores whatever
  it is given. Only the radio group limits the ratings to 1 to 5, and the
  gate checks the range.
- `nextStep` does not check `canProceed` itself. The Next button is disabled
  instead. So `QuizSpec.NextStep` is unconditional, and the gating lives in
  `QuizSpec.Enabled`.
- Start does not check the view either. The start button is only rendered in
  the intro view.

Each rest type has five questions (app/page.tsx:21-71).

The click model (`QuizSpec.Enabled`, `Click`, `Run`, `Consistent`) takes the
Next button's gate as a parameter (`QuizSpec.Gate`):

- `PageGate` is the `canProceed` test as the page has it. Its `every` skips
  holes (`Answers.PassesAsWritten`).
- `IntendedGate` needs all five questions rated (`Answers.Complete`). It is
  the correction of the finding below.

The invariant is proved for both gates. Under the page's gate, a results view
can show rest types with unanswered questions, and each total lies between
1 and 25 (`QuizSpec.PageResultsViewScoresInRange`). `QuizSpec.PageGateReachesUnansweredResults`
exhibits such a run. Under the intended gate, every rest type at the results
view is complete, and each total lies between 5 and 25
(`QuizSpec.ResultsViewScoresInRange`).

## Model

| member | source | states |
|---|---|---|
| Answers.Spread | app/page.tsx:137 | the copy has the same length and no holes, and every question shows the same rating as before |
| Answers.Written | app/page.tsx:136-138 | after writing rating `v` at index `q`: question `q` shows `v`, and every other question shows what it showed before; the length grows to `q + 1` only when `q` was past the end; the new indices in between are holes, and no copied index is a hole |
| Answers.CompleteIffEveryQuestionRated | app/page.tsx:146-149 | the intended gate holds exactly when the list has five entries and each of the five questions shows a rating in [1, 5] |
| Answers.AsWrittenGateAdmitsUnansweredQuestions | app/page.tsx:138-148 | answering only question 5 of a fresh rest type passes the gate as written (length 5, holes skipped by `every`), even though questions 1 to 4 show no rating and the intended gate fails |
| Answers.GatesAgreeWithoutHoles | app/page.tsx:148 | on a list without holes, the gate as written and the intended gate agree |
| Answers.TotalBounds | app/page.tsx:168 | a list of n ratings, each in [1, 5], sums to between n and 5n |
| Answers.CompleteScoreInRange | app/page.tsx:168 | a completed rest type scores between 5 and 25, the range behind the "/25" display at app/page.tsx:235 |
| Scoring.Insert | app/page.tsx:172 | inserting into the sorted list adds exactly the new entry, so the result is a permutation of the list plus that entry |
| Scoring.SortByScore | app/page.tsx:172 | the sort returns a permutation of its input |
| Scoring.InsertRanked | app/page.tsx:172 | an entry that came earlier in the input than every entry of a ranked list keeps the list ranked when inserted: a higher score comes first, and ties keep input order |
| Scoring.SortIsRanked | app/page.tsx:11-19 | stability: sorting the rest types from catalogue order ranks them by descending total, and equal totals by catalogue position (the ECMA-262 stable sort used at app/page.tsx:172) |
| Scoring.ScoresHoldEveryEntry | app/page.tsx:166-170 | the mapped scores are in catalogue order and hold every rest type with its own total, and nothing else |
| Scoring.CalculateResults | app/page.tsx:165-173 | exactly two results, with scores in non-increasing order |
| Scoring.CalculateResultsPicksTopTwo | app/page.tsx:165-173 | the two results are distinct rest types, each carrying its own total; a rest type with no entry scores 0; the first outranks the second; the second outranks every other rest type, where ties go to the rest type earlier in the catalogue |
| QuizSpec.HandleAnswerWritesOneRating | app/page.tsx:134-144 | `handleAnswer(q, v)` makes question `q` of the current rest type show `v`; every other question of that rest type, every other rest type, the step and both flags keep their values |
| QuizSpec.CanProceedNeedsFiveRatings | app/page.tsx:146-149 | under the intended gate, `canProceed` holds exactly when the current rest type has five entries, each a rating in [1, 5] |
| QuizSpec.NextStepStaysInRange | app/page.tsx:151-157 | below the last step, `nextStep` adds exactly 1 to the step and leaves `showResults` as it was; at the last step, it sets `showResults` and keeps the step; the step stays in [0, 6] and the answers are unchanged |
| QuizSpec.PrevStepStaysInRange | app/page.tsx:159-163 | at step 0, `prevStep` changes nothing; elsewhere, it subtracts exactly 1 from the step; the answers and flags are unchanged either way |
| QuizSpec.RestartYieldsInitial | app/page.tsx:175-180 | `restart` from any state gives the initial state (step 0, no answers, both flags false), which is the intro view |
| QuizSpec.ActionPreservesConsistency | app/page.tsx:151-163 | for either gate of the Next button: any click on a control the page offers keeps the invariant, and so does a click on a disabled control (Previous is disabled at step 0, app/page.tsx:364; Next is disabled unless `canProceed` passes the gate, app/page.tsx:373). The invariant: the intro is shown only in the initial state; every stored list holds a rating; on the question pages, every earlier rest type passes the gate; the results are shown only from step 6, with every rest type passing the gate |
| QuizSpec.RunPreservesConsistency | app/page.tsx:182-208 | for either gate: every sequence of clicks from a consistent state ends in a consistent state |
| QuizSpec.ResultsViewScoresInRange | app/page.tsx:208-235 | with Next gated by the intended gate: on every results view reachable from the initial state, every rest type has all five questions rated, each total lies in [5, 25], and so do both scores shown |
| QuizSpec.PageResultsViewScoresInRange | app/page.tsx:146-149 | with Next gated as the page gates it (app/page.tsx:373): on every results view reachable from the initial state, every rest type has five entries that pass the `every` test, each total lies in [1, 25], and so do both scores shown |
| QuizSpec.NoUndefinedAtResults | app/page.tsx:165-169 | for either gate: no rest type of a reachable results view holds an `undefined` element, so the `reduce` sum is never NaN |
| QuizSpec.PageGateReachesUnansweredResults | app/page.tsx:134-157 | under the page's gate, this click sequence reaches the results view: start, then answer only the last question of each rest type with rating 1 and press Next. There, every rest type has questions 1 to 4 unanswered and a total of 1, and the results are Mental Rest then Physical Rest, each with score 1 |
| Answers.TotalBoundsWithHoles | app/page.tsx:168 | when the holes are skipped and every other entry is a rating in [1, 5], the total lies between 0 and 5 per entry and is at least every single rating in the list |
| Answers.PassingScoreInRange | app/page.tsx:146-149 | a list that passes the page's gate and holds a rating totals between 1 and 25 |
| Answers.GatesExcludeUndefined | app/page.tsx:148 | neither gate passes a list that holds an `undefined` element |
| Scoring.AllTiedPicksFirstTwo | app/page.tsx:172 | when every rest type has the same total, the results are Mental Rest then Physical Rest, the first two of the catalogue (app/page.tsx:11-19) |
| RestRevealComponent.RestReveal.constructor | app/page.tsx:126-129 | the component starts in the initial state, which is consistent under either gate |
| RestRevealComponent.RestReveal.Start | app/page.tsx:196 | sets `started` and changes nothing else |
| RestRevealComponent.RestReveal.HandleAnswer | app/page.tsx:134-144 | the new state is `QuizSpec.HandleAnswer` of the old one: question `questionIndex` shows `value`, and every other rest type's list is unchanged |
| RestRevealComponent.RestReveal.NextStep | app/page.tsx:151-157 | the new state is `QuizSpec.NextStep` of the old one, and a valid step stays valid |
| RestRevealComponent.RestReveal.PrevStep | app/page.tsx:159-163 | the new state is `QuizSpec.PrevStep` of the old one, and a valid step stays valid |
| RestRevealComponent.RestReveal.Restart | app/page.tsx:175-180 | the new state is the initial state, which is the intro view |

## Findings

| source | as written | input that shows it | evidently intended | confidence | as-written member | corrected member |
|---|---|---|---|---|---|---|
| app/page.tsx:148 | `currentAnswers.length === 5 && currentAnswers.every(...)`, where `every` skips holes | on a rest type with no answers yet, answer only question 5 (index 4): the array becomes four holes then the rating, so its length is 5 and `every` passes, and Next is enabled with four questions unanswered | Next is enabled only when all five questions carry a rating in [1, 5] | high (reasoned from ECMA-262 array semantics; not executed) | Answers.AsWrittenGateAdmitsUnansweredQuestions | Answers.CompleteIffEveryQuestionRated |

The model proves its invariant under both gates (`QuizSpec.Gate`). The
results that need every question answered are stated for the corrected gate
(`Answers.Complete`). `Answers.GatesAgreeWithoutHoles` shows that the two
gates differ only on lists with holes. Such a list arises only when a
question is answered before an earlier question of the same rest type has
ever been answered.

## Left out

- Rendering, Tailwind classes and colour-string matching (app/page.tsx:182-398): these are presentation only. Only the choice of view (intro, questions, results) is modelled, as `QuizSpec.PhaseOf`.
- The progress percentage and its `Math.round` (app/page.tsx:132, app/page.tsx:284): these are floating-point display arithmetic.
- The statement and recommendation texts and the rest type names (app/page.tsx:11-123): the model keeps only 7 rest types, identified by position, with 5 questions each.
- `Number.parseInt` on the radio values (app/page.tsx:138): the radio group only supplies "1" to "5", so the rating is modelled as an `int`.
- React's `useState` batching and re-render scheduling: each handler is one synchronous state transition.
- Answers.Contribution: counts an `undefined` element as 0, whereas JavaScript's sum would become NaN. `QuizSpec.NoUndefinedAtResults` shows that, under either gate, no results view reachable from the initial state holds such an element. So the difference never reaches the scores shown.
- app/layout.tsx is not part of this model: it holds page metadata, font links and an inline style, with no logic.
