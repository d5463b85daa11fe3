# hamprep study engine, in Dafny

hamprep is a browser study tool for the three US amateur radio licence exams
(technician, general, extra). For each exam it keeps a question pool and a
progress record `{pass, correct, seen}`. The learning engine in `app.js` does
three things:

- It picks the next question. The pool is gated to its first ten positions
  while fewer than ten ids are seen or accuracy is below 80%, so the gate
  closes again when accuracy drops and after every rollover. Unseen
  questions are preferred, and one candidate is drawn at random.
- It builds the answer options. Pass 1 shows only the right answer. Later
  passes show the right answer and one random wrong answer, in random order.
- It records an answer. The id joins `seen` once, a right answer is counted,
  the store is persisted, and a pass ends when `seen` covers the pool.

The model keeps this logic and drops the DOM, `fetch` and `localStorage`.

Randomness becomes explicit parameters:

- Each `Math.random()` value is a `Fraction` (a real in [0, 1)).
- The index it picks is the floor of the fraction times the list length, as
  in the source.
- The two-element comparator shuffle is a `swap` flag.

For every draw, the model proves what the engine guarantees. It also proves
that each candidate question and each wrong answer can actually be drawn.

Files, one module each:

- `domain.dfy` (`Domain`): exams, question records, progress records, the
  initial store, random draws.
- `selection.dfy` (`Selection`): the first-ten gate, the unseen preference and
  the draw.
- `answer_options.dfy` (`AnswerOptions`): the options shown for a question.
- `recording.dfy` (`Recording`): one answer's effect on a category and on the
  store.
- `session.dfy` (`Session`): the application state, with load and answer.
- `mastery.dfy` (`Mastery`): when ids are unique within the pool and, after
  the first pass, every question has at least two answers, a learner who
  always answers right completes a pass in exactly as many answers as the
  pool has questions.

Three facts about the code shape the model:

- There are no batch windows. Gating is one first-ten threshold
  (app.js:34-39): the pool is cut to its first ten positions, or not at all.
- A later pass on a question with a single answer throws at app.js:54, where
  it reads the text of a wrong answer that does not exist. The model returns
  `Err(NoIncorrectOption)` there.
- `correct` can exceed `|seen|`: a repeated question adds to `correct` but
  not to `seen` (`Recording.CorrectMayExceedSeen`).

The accuracy test `correct / (seen.length || 1) < 0.8` is stated in integers
as `5 * correct < 4 * max(|seen|, 1)`. The two forms agree for every seen-list
length JavaScript allows. An array is shorter than 2^32, and for a
denominator d the exact quotient lies at least 1/(5d) away from 0.8 unless it
equals 0.8. That gap is far above the rounding error of a double near 0.8
(about 5.6 * 10^-17). A disagreement would need d above 10^15.

## Model

| member | source | states |
|---|---|---|
| Domain.InitialStore | app.js:3-7 | with nothing persisted, every exam gets an entry with pass 1, no right answers and nothing seen; a persisted store is used as it is |
| Domain.Scale | app.js:42 | a random draw in [0, 1) scaled by a non-empty length picks a valid index, the floor of draw times length |
| Domain.ScaleReaches | app.js:42 | every index of a list can be drawn: the draw k/n picks index k |
| Selection.KeepBelow | app.js:34-38 | the position filter keeps exactly the positions below the bound, and never lengthens the list |
| Selection.KeepUnseen | app.js:40 | the unseen filter keeps exactly the positions whose question id is not in the seen list |
| Selection.Candidates | app.js:40-41 | the draw list is non-empty for a non-empty pool, holds only available positions, and holds only unseen questions whenever some available question is unseen |
| Selection.Select | app.js:27-42 | an empty pool yields no question; otherwise the chosen position is in the pool and available, is below ten while the learner is gated, and names an unseen question whenever an available one is unseen |
| Selection.AvailableIsPrefix | app.js:34-39 | the two filters together leave the first min(10, n) positions while fewer than ten ids are seen or accuracy is below 80%, and the whole pool otherwise |
| Selection.AvailableExactly | app.js:34-39 | a position is available if and only if it lies in the pool and, while gated, below ten |
| Selection.WholePoolOpensOnlyWhenProficient | app.js:34-39 | for a pool longer than ten, every position is available if and only if at least ten ids are seen and 5 * correct >= 4 * seen |
| Selection.SelectReachesEveryCandidate | app.js:40-42 | every candidate position can be the one drawn |
| Selection.SelectStaysInCandidates | app.js:41-42 | the drawn position is always one of the candidates |
| Selection.UnseenPreferred | app.js:40-42 | any available unseen question can be drawn |
| Selection.RepeatsWhenAllSeen | app.js:40-42 | once every available question has been seen, any available question can be drawn again |
| AnswerOptions.IncorrectFrom | app.js:51-53 | the wrong-answer indices from a start point are exactly those in range other than the right one, in increasing order |
| AnswerOptions.Incorrect | app.js:51-53 | a question's wrong-answer indices are exactly its answer indices other than the right one; a well-formed question has one fewer of them than it has answers |
| AnswerOptions.BuildOptions | app.js:48-57 | pass 1 or below shows exactly the right answer; a later pass shows two options, the right answer and a wrong answer in some order; a later pass with fewer than two answers fails with NoIncorrectOption |
| AnswerOptions.EveryDistractorReachable | app.js:51-56 | on a later pass every wrong answer can be offered, before or after the right one |
| AnswerOptions.ShuffleOnlyPermutes | app.js:56 | the two shuffle outcomes show the same two answers in opposite orders |
| Recording.Record | app.js:72-96 | the answer is right if and only if it equals the right answer's text; the id is appended to seen only if absent, so a duplicate-free seen list stays duplicate-free; correct grows by one on a right answer; the pass is unchanged before the rollover check; when seen reaches the pool size the record becomes pass + 1 with nothing counted, and otherwise it stays as saved |
| Recording.PassNeverDecreases | app.js:92-96 | the pass number never decreases, and it increases by one if and only if the seen list reaches the pool size |
| Recording.RepeatNotCountedTwice | app.js:73-75 | answering an already seen question leaves the seen list unchanged |
| Recording.CorrectMayExceedSeen | app.js:73-79 | two right answers to the same question leave correct at 2 with one id seen |
| Recording.RecordInStore | app.js:73-96 | the persisted snapshot holds the record before rollover, the live store the record after it, and every other exam's entry is unchanged |
| Session.Initial | app.js:1-9 | the start state is well formed, its store is the persisted store or the default one, every pool is empty, technician is selected and there is no current question |
| Session.Load | app.js:27-57 | loading never changes the bank or the store; an empty pool changes nothing and shows the loading state; otherwise the current question comes from the pool, below position ten while gated, and is unseen whenever an available question is unseen; pass 1 or below shows exactly the right answer; a later pass shows two options, the right answer and a wrong answer `answers[i]` with i other than the right index, in some order; the load fails, with NoIncorrectOption, if and only if it is a later pass and the question has fewer than two answers |
| Session.Choose | app.js:27-42 | an empty pool yields no question; otherwise the question is a well-formed pool entry, below position ten while gated, and unseen whenever an available question is unseen |
| Session.Present | app.js:48-57 | the options shown fail with NoIncorrectOption if and only if it is a later pass and the question has fewer than two answers; otherwise they contain the right answer, are exactly the right answer on pass 1 or below, and on a later pass are two options, the right answer and a wrong answer `answers[i]` with i other than the right index, in some order |
| Session.Answer | app.js:69-98 | answering with no loaded question fails with NoActiveQuestion; otherwise the result reports whether the text was right; other exams' records are unchanged in both the live and the persisted store; the persisted record is the record before the pass check, holds the question id and has one more right answer exactly when the answer was right; the live record is the record after the pass check, equal to the persisted one unless the pass completed; the pass never decreases |
| Session.LoadPreservesValid | app.js:27-57 | loading keeps the state well formed |
| Session.AnswerPreservesValid | app.js:69-96 | answering keeps every exam's seen list duplicate-free and the state well formed |
| Session.SnapshotBeforeRollover | app.js:91-96 | on the answer that completes a pass, the live record starts the next pass while the persisted snapshot still carries the old pass and the full seen list |
| Mastery.PerfectRoundPicksUnseen | app.js:34-42 | with ids unique in the pool, a learner who has only answered right, with the pass not complete, is always given a question not yet seen in this pass |
| Mastery.PerfectRoundStep | app.js:27-96 | with ids unique in the pool, each right-answer round from a perfect record adds exactly one seen id and one right answer in the same pass, and the round that reaches the pool size starts the next pass |
| Mastery.RunProgress | app.js:92-96 | any step that advances a perfect record by one id, or to the next pass when the pool is covered, carries a perfect record through k more ids after k steps, or to the next pass once k reaches the rest of the pool |
| Mastery.PerfectRunProgress | app.js:27-96 | with ids unique in the pool, after k right-answer rounds from a perfect record, the record has k more distinct seen ids and as many right answers, or has rolled over to the next pass when the pool is covered |
| Mastery.PerfectPass | app.js:27-96 | with ids unique in the pool, and counting rounds in which the loaded question is answered (always possible on pass 1, or when every question has two answers), from the start of a pass, whatever the draws, k right answers leave exactly k ids seen, and the answer that covers the pool starts the next pass |
| Mastery.RoundIsLoadThenAnswer | app.js:27-98 | on pass 1, or when every question of the pool has at least two answers, loading always shows options, and answering with the right answer changes the current exam's record exactly as one perfect round does |

## Left out

- Loading the question pools: `loadQuestionPools` (app.js:12-25) fetches and parses JSON. The bank is a given map from exam to question list, empty at start.
- Rendering: feedback text, CSS classes, the progress line `updateProgress` and the answer elements (app.js:44-47, 58-66, 70-71, 77-90, 104-108). `Session.Load` returns the options it would render and `Session.Answer` returns whether the answer was right.
- Category switching: the `examLevel` listener (app.js:111-114) sets the current exam and loads a question. The caller sets `State.exam` and then calls `Session.Load`.
- `nextQuestion` (app.js:100-102) only calls `loadQuestion`, which is `Session.Load`.
- `localStorage`: reading it and JSON parsing (app.js:3) become the `persisted` argument of `Domain.InitialStore`. Writing it (app.js:91) becomes the `persisted` snapshot returned by `Session.Answer`.
- `Math.random` and the comparator shuffle (app.js:42, 54, 56): these are caller-supplied `Fraction` draws and a `swap` flag. How uniform the draws are is not modelled.
- Floating-point division in the accuracy test (app.js:37): this is the integer comparison `5 * correct < 4 * max(|seen|, 1)`.
- Malformed question records: a `correct` index outside the answer list makes the source render `undefined`. The model requires `0 <= correct < |answers|` (`Domain.WellFormed`) of every loaded question.
- Session.Initial requires the persisted store to be one that app.js:91 wrote: an entry for every exam and duplicate-free seen lists, which app.js:73-75 keeps. A hand-edited store that breaks this is not modelled.
- A missing progress entry for the current exam makes the source throw on property access. The model requires every exam to have an entry (`Domain.Complete`).
- `indexOf` finds a question by reference, and parsed records are distinct objects, so a question's position is its index in the pool.
- Session.Answer can be applied after a load that ended in `Failed`. The source cannot get there: app.js:47 clears the answer elements before the throw at app.js:54, so nothing is left to click. Callers use `Session.Answer` only after a `Presented` load.
- Mastery: the perfect-round lemmas are about the record logic. They match the application only where `Mastery.RoundIsLoadThenAnswer` applies: on pass 1, or when every question has at least two answers. On a later pass, a single-answer question fails to load. Once it is the only unseen one, the unseen preference keeps drawing it, and the pass never completes.
- Cross-exam answers: the source keeps the current question when the pool is empty (app.js:29-31), and so does the model. As a result, an answer given after switching to a still-empty pool records the previous exam's question in the new exam. No contract rules this out.
