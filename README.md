# Quiz session model

A Dafny model of the quiz screen's session logic in `app/index.tsx`. The screen loads a
set of multiple-choice questions and records one selected option per question while the
user is answering. On submit it counts the questions answered with their correct option
and switches to a review phase. In that phase every option is annotated as selected,
correct or wrong, and nothing can be changed any more.

- `scoring.dfy` (module `Scoring`) defines the `Question` record and the answer map. It
  gives the scoring rule as a recursive function, `CountCorrect`, that walks the question
  set in order the way the source's `forEach` does. Lemmas cover the edge cases: full marks
  exactly when every answer is correct, zero exactly when none is, zero for an empty map,
  and answers to ids that no question has are ignored.
- `review.dfy` (module `Review`) covers the derived review annotations
  (`isSelected`/`isCorrect`/`isWrong`), the button style they select, and the option letter.
- `session.dfy` (module `QuizSession`) holds the stateful controller: a `Session` class
  with the four state fields of the component (`questions`, `answers`, `submitted`, `score`)
  and its three state changes:
  - `Load`: the effect of the question request.
  - `Select`: records an answer, but only while answering.
  - `Submit`: the counting loop, proved equal to `CountCorrect`.

  The class invariant `Valid()` says that once reviewing, the score is the scoring rule
  applied to the frozen answers. `AnswersValid` says that every recorded answer is an
  option position of its question. `Select` preserves it when called the way the option
  buttons call it. Four scenario methods replay whole sessions.

Modelling choices:
- JavaScript's `answers[q._id] === idx` is false when the key is missing. So both the
  hit test and `IsSelected` require the key to be present before they compare.
- `String.fromCharCode(65 + idx)` makes one UTF-16 code unit. `OptionLabel` therefore
  returns a `CodeUnit` (integers below 2^16) computed modulo 2^16. Options 0 to 25 get the
  letters `A` to `Z`.
- The source calls `setQuestions` with the response body. A failed request is only logged,
  so the question set stays as it was, which is empty at mount.
- The source shows the submit button whenever it is not reviewing, even before any
  questions have arrived. A submit at that point scores 0 against the empty set. A later
  load then shows the new questions already in review. The model allows this sequence:
  `Load` keeps `Valid()` whenever the answer map is empty.

## Model

| member | source | states |
|---|---|---|
| Scoring.IsHit | app/index.tsx:37 | a question counts only if its id has a recorded answer and that answer equals its correct index; a missing answer never counts |
| Scoring.CountCorrect | app/index.tsx:34-41 | the score of an attempt never exceeds the number of questions |
| Scoring.CountCorrectIsHitCount | app/index.tsx:35-41 | the score equals the number of positions in the question set whose question is answered with its correct option |
| Scoring.FullScoreIffAllCorrect | app/index.tsx:36-40 | the score equals the question count if and only if every question is answered correctly |
| Scoring.ZeroScoreIffNoneCorrect | app/index.tsx:36-40 | the score is zero if and only if no question is answered correctly |
| Scoring.EmptyAnswersScoreZero | app/index.tsx:35-41 | with an empty answer map the score is zero for every question set |
| Scoring.AllAnswersCorrectScoreFull | app/index.tsx:36-40 | if every question's id maps to its own correct index, the score is the question count |
| Scoring.UnaskedKeyIrrelevant | app/index.tsx:36-40 | an answer-map entry whose key is no question's id does not change the score |
| Review.IsSelected | app/index.tsx:54 | an option is selected only if its question has a recorded answer, and then only the option at that index |
| Review.IsCorrect | app/index.tsx:55 | before submission no option is marked correct; a marked option is the question's correct one |
| Review.IsWrong | app/index.tsx:56 | before submission no option is marked wrong; a wrong option is reviewed, selected and not correct |
| Review.ButtonMode | app/index.tsx:58-61 | after the three reassignments the style is contained if and only if the option is selected or correct (wrong adds nothing); before submission, if and only if it is selected |
| Review.SelectedOptionUnique | app/index.tsx:54 | at most one option of a question is selected |
| Review.ReviewedSelectionIsCorrectOrWrong | app/index.tsx:55-56 | in review a selected option is marked either correct or wrong, never both |
| Review.HitIffCorrectOptionSelected | app/index.tsx:54-55 | a question counts towards the score if and only if its correct option is the selected one |
| Review.OptionLabel | app/index.tsx:75 | the label of option idx is the code unit 65 + idx (no wrap below 2^16 - 65), so options 0 to 25 are labelled 'A' to 'Z' |
| Review.OptionLabelInjective | app/index.tsx:75 | distinct options get distinct labels while the codes do not wrap |
| QuizSession.Session.constructor | app/index.tsx:16-19 | a new session has no questions, an empty answer map, is answering and has score 0 |
| QuizSession.Session.Load | app/index.tsx:21-26 | a delivered question set replaces the questions wholesale; a failure leaves them unchanged; answers, phase and score are untouched |
| QuizSession.Session.Select | app/index.tsx:28-32 | while answering, the map becomes the old map with qId set to idx and every other key kept; once reviewing the map is unchanged; a button-made selection keeps every answer a valid option index; questions, phase and score are untouched |
| QuizSession.Session.Submit | app/index.tsx:34-43 | the score becomes CountCorrect of the questions and answers, lies between 0 and the question count, and the phase becomes reviewing; questions and answers are untouched |
| QuizSession.ScenarioAnsweredCorrectly | app/index.tsx:28-43 | one question answered with its correct option scores 1 and ends in review |
| QuizSession.ScenarioUnanswered | app/index.tsx:34-43 | the same question left unanswered scores 0 |
| QuizSession.ScenarioOneRightOneWrong | app/index.tsx:28-43 | two questions, one right and one wrong, score 1 of 2 |
| QuizSession.ScenarioSelectAfterSubmit | app/index.tsx:28-43 | a selection after submission changes neither the recorded answer nor the score |

## Left out

- The network request for the question set, parsing the response body, and error logging (app/index.tsx:21-26) are I/O. `Load` receives their outcome as a parameter: a list of well-formed questions, or a failure. A response that is not a list of questions is not modelled.
- React state hooks, the one-time effect, and all rendering (titles, cards, the "Correct Answer" paragraph, the score line) are UI. Each state update is modelled as a direct field assignment.
- Background colours and layout (app/index.tsx:68-73) are presentation on top of the classification that `Review` models. The button text beyond the option letter is left out too.
- `correctAnswerIndex` is modelled as an integer. A JSON number that is not an integer is not modelled; it would never equal an option index.
- QuizSession.Session.Load: keeps `Valid()` after a successful load only when no answer has been recorded yet. That is always the case in the source, because the load happens once at mount, before any option exists.
- QuizSession.Session.Submit: requires the answering phase. The source shows the submit button only then, so repeated submission is not modelled.
- The progress report that `app/(tabs)/quiz.tsx` sends after submission is not part of this model. Neither are the user-identity fallback and the race between two submits. The scoring logic in that file is the same as in `app/index.tsx`.
