# Quiz-session engine — a Dafny model

This project models the engine of a question-bank practice app (a Streamlit
script, `app.py`). Without its widgets, the app is a small state machine:

- **Session selector** (`Selection`). It restricts the question catalog to
  the chosen subject systems and applies the `unused` / `incorrect` /
  `marked` status filters with OR semantics. It refuses to start when the
  qualifying pool holds fewer questions than requested. Otherwise it draws
  that many distinct questions and shuffles each copy's options in place.
- **Session state** (`QuizSession.Session`). This class holds the fields of
  the app's `state` record. Its operations are start, the countdown check of
  a timed (test-mode) session, submit, next, the summary and the return to
  set-up.
- **Progress record** (`ProgressRecord.Progress`). This class holds the
  `attempted` / `correct` / `incorrect` / `marked` id sets, the confidence map
  and the per-question statistics. A submitted answer, a confidence choice and
  the review mark update it in place.
- **Accounts** (`Auth.Accounts`). The user-name → password-digest table, with
  the login check and sign-up.

Randomness, the clock and the password hash are not computed here; they are
parameters:

- **The random sample** of the pool is a caller-supplied list of distinct pool
  positions (`Selection.IsSample`).
- **Each shuffle** is the in-place Fisher–Yates walk that the random module
  performs. Its random draws (`randbelow(i + 1)`) come from a caller-supplied
  function, reduced modulo `i + 1`.
- **Clock readings** are `real` parameters. The elapsed time is their
  difference truncated toward zero, as `int(...)` does.
- **`last_seen`** is an opaque timestamp parameter.
- **The password digest** is a function parameter.

Where the code's behaviour may surprise a reader, the model follows the code:

- **Summary percentage.** The code divides the score by the session's
  question count with no guard. `QuizSession.Percent` therefore requires a
  positive total. The guard always holds: the question-count slider starts at
  5, and `Session.Valid` keeps `5 <= |questions| <= 100` once a session has
  run.
- **New session.** The "New Session" button clears only `started`.
  `session_over` stays true until the next successful start, exactly as in
  `app.py:232-234`.
- **Answer validity.** The code never checks that a submitted answer is
  among the options; the answer widget only offers the options. `Submit`
  therefore states this as a precondition rather than as an error path.
- **Key types.** Statistics and confidence are keyed by `str(qid)` in the
  code, while the sets hold `qid` itself. `str` is injective, so the model
  keys all of them by the id.

## Model

| member | source | states |
|---|---|---|
| `Selection.Checks` | app.py:177-183 | the list of checks of one question: `not attempted` when `unused` is active, `in incorrect` when `incorrect` is active, `in marked` when `marked` is active, in that order |
| `Selection.Allow` | app.py:175-184 | a question passes when no filter is active, and otherwise when any of its checks holds |
| `Selection.AllowIsDisjunction` | app.py:175-184 | a question passes the status filters iff no filter is active, or it is unattempted with `unused` active, or in `incorrect` with `incorrect` active, or in `marked` with `marked` active |
| `Selection.Filter` | app.py:173 | a conditional list comprehension keeps exactly the entries that satisfy the condition, and never grows the list |
| `Selection.FilterKeepsUniqueIds` | app.py:173 | filtering a list with distinct ids yields a list with distinct ids |
| `Selection.FilterAppend` | app.py:173 | filtering keeps order: the filter of two joined lists is the join of their filters |
| `Selection.FilterAll` | app.py:184 | a condition that admits every entry keeps the list unchanged |
| `Selection.BySystem` | app.py:172-173 | a question is kept iff it is in the catalog and its system is selected, or no system is selected; the list never grows |
| `Selection.Pool` | app.py:170-186 | a question is in the pool iff it is in the catalog, its system is selected (or no system is selected), and it passes the status filters; the pool is no larger than the catalog |
| `Selection.PoolKeepsUniqueIds` | app.py:170-186 | a catalog with distinct ids yields a pool with distinct ids |
| `Selection.PoolKeepsAnswersListed` | app.py:170-186 | a catalog whose answers are among their options yields a pool with the same property |
| `Selection.PoolUnfiltered` | app.py:170-186 | with no system selected and no status filter, the pool is the whole catalog in catalog order |
| `Selection.ShuffleInPlace` | app.py:194 | shuffling an option list in place keeps the same options with the same multiplicities |
| `Selection.Draw` | app.py:192-194 | exactly `num_q` questions; the k-th is the sampled pool entry with its options reordered; distinct ids and listed answers carry over from the pool |
| `Selection.Select` | app.py:169-194 | fails with the pool size iff the pool is smaller than `num_q` (so a pool of exactly `num_q` succeeds); otherwise `num_q` reordered pool entries, each meeting the system and status filters, with no repeated id and every answer still among its options |
| `ProgressRecord.Assign` | app.py:258-265 | after the update the id is a member iff requested, and no other id's membership changes |
| `ProgressRecord.AssignIdempotent` | app.py:283-286 | marking (or unmarking) twice is the same as doing it once |
| `ProgressRecord.StatsAfter` | app.py:123-132 | the answered id gains an entry if it had none; its attempts rise by one and exactly one of correct / incorrect rises by one; `last_seen` is stamped; other ids' entries are unchanged |
| `ProgressRecord.AnswerKeepsRecordConsistent` | app.py:255-267 | one answer keeps `correct` and `incorrect` disjoint and inside `attempted`, keeps `attempts == correct + incorrect` for every entry, keeps the statistics keyed by exactly the attempted ids, and keeps each id's current classification counted at least once |
| `ProgressRecord.CorrectThenIncorrect` | app.py:258-267 | a correct and then an incorrect answer to any question leave it incorrect, not correct; its entry gains two attempts, one correct and one incorrect, and carries the second time; an unseen question ends with exactly that entry |
| `ProgressRecord.Progress.constructor` | app.py:36-43 | a new user's record is empty and consistent |
| `ProgressRecord.Progress.RecordAnswer` | app.py:258-265 | the id joins `attempted`; it ends in `correct` iff the answer was right and in `incorrect` iff it was wrong; other ids keep their membership; the classification invariant is preserved |
| `ProgressRecord.Progress.SaveStats` | app.py:123-132 | the statistics become `StatsAfter` of the old ones; balanced entries stay balanced |
| `ProgressRecord.Progress.SetConfidence` | app.py:280-281 | the confidence of the id is replaced by the latest choice (last write wins); a consistent record stays consistent |
| `ProgressRecord.Progress.SetMarked` | app.py:283-286 | the id is in `marked` iff the checkbox is ticked; no other id changes; a consistent record stays consistent |
| `QuizSession.TimeLimit` | app.py:205 | a test session gets 90 seconds per question; a reading session gets no limit |
| `QuizSession.Elapsed` | app.py:120-121 | the elapsed time is the clock difference truncated toward zero: non-negative and within one second below the difference when the clock did not go back |
| `QuizSession.Remaining` | app.py:211 | the remaining time is never negative; it is zero iff the elapsed time has reached the limit, and otherwise equals limit minus elapsed |
| `QuizSession.AnsweredCorrectly` | app.py:224 | a question counts toward the score iff an answer is recorded for its id and equals the question's answer |
| `QuizSession.Score` | app.py:222-225 | the score is at most the number of session questions |
| `QuizSession.ScoreCountsCorrect` | app.py:222-225 | the score equals the number of session positions whose recorded answer equals the question's answer |
| `QuizSession.ScoreAtMostAnswered` | app.py:222-225 | unanswered questions contribute nothing: the score is at most the number of answered positions |
| `QuizSession.ScoreAllCorrect` | app.py:222-225 | answering every question correctly scores the full total |
| `QuizSession.ScoreOneOfThree` | app.py:222-225 | three questions with only the first answered, correctly, score one out of three |
| `QuizSession.Percent` | app.py:228 | with a positive total, a score within the total gives a percentage between 0 and 100; the percentage is 100 iff every question was answered correctly |
| `QuizSession.Session.constructor` | app.py:104-115 | the initial state: not started, no start time, index 0, no questions, no answers, no feedback, not over, reading mode, no limit |
| `QuizSession.Session.Start` | app.py:169-206 | ignored (state untouched) while a session is started; refused with the pool size and the state untouched when the pool is too small; otherwise started at index 0 with no answers, no feedback, not over, the chosen mode, its time limit and the drawn questions, each a reordered pool entry meeting the filters, with no repeated id and answers among the options |
| `QuizSession.Session.Begin` | app.py:196-206 | the state update of a successful start sets every session field and keeps the session invariant |
| `QuizSession.Session.TimeUp` | app.py:209-214 | holds iff the session runs in test mode and its remaining time is zero |
| `QuizSession.Session.Tick` | app.py:209-216 | a running test session becomes over iff its remaining time is zero; reading sessions and finished sessions are untouched |
| `QuizSession.Session.Current` | app.py:239-241 | while a session runs, the shown question is one of the session's questions (the index is in range) |
| `QuizSession.Session.Submit` | app.py:209-269 | the countdown check runs first: once the time is up the session ends and the answer is dropped, with answers, feedback and progress unchanged; otherwise the choice overwrites any earlier answer for the current question's id; the progress sets and statistics change as `RecordAnswer` and `SaveStats` state; feedback turns on, and the same run records the confidence choice and makes the mark follow the checkbox for that question; a consistent progress record stays consistent |
| `QuizSession.Session.ApplyReview` | app.py:280-286 | the current question's confidence becomes the chosen level and its mark follows the checkbox; other ids are untouched; a consistent progress record stays consistent |
| `QuizSession.Session.Review` | app.py:209-286 | a run of the script with the feedback shown and no button pressed: the countdown check runs first: once the time is up the session ends and progress is unchanged; otherwise the current question's confidence becomes the chosen level and its mark follows the checkbox; a consistent progress record stays consistent |
| `QuizSession.Session.Advance` | app.py:209-292 | the countdown check runs first: once the time is up the session ends with the index and feedback unchanged; otherwise the run records the confidence choice and the mark for the current question, then the index rises by one, feedback turns off, and the session is over iff the index has reached the number of questions |
| `QuizSession.Session.Report` | app.py:219-228 | the summary's total is the number of session questions (positive); its score is the count of correctly answered questions, within the total; the percentage is `Percent` of that score and total, between 0 and 100 |
| `QuizSession.Session.NewSession` | app.py:232-234 | leaving the summary clears `started`; the session invariant still holds |
| `Auth.Accounts.constructor` | app.py:58 | the account table is the loaded one |
| `Auth.Accounts.LogIn` | app.py:73 | an unknown user name never logs in |
| `Auth.Accounts.SignUp` | app.py:85-91 | a taken name is refused and the table is unchanged; otherwise the name is stored with the password's digest and can then log in; no other user's login changes |

## Left out

- Widgets, page layout, `st.stop` / rerun control flow and the answer widget's default-index computation (app.py:10, 63-94, 144-166, 240-252). The part of that control flow that gates state changes is modelled: `Submit`, `Review` and `Advance` each run the countdown check first and change nothing else once the time is up, which is what `st.stop()` after the summary does. Their preconditions state which widgets are on screen (for example, `Advance` requires the feedback to be shown).
- The explanation and correct/incorrect messages shown after submit (app.py:271-278). They are display only and change no state.
- Confidence widget state: the confidence selector has no per-question key, so its value may carry over from an earlier question. The model takes the chosen level as a parameter.
- File I/O: loading and saving users, progress and the question file, and `persist_progress` (app.py:19-55, 134-141). The JSON list-to-set round trip of the id sets (app.py:100-101) is also not modelled.
- On sign-up the code also writes the new user's progress file (app.py:91); that file I/O is not modelled.
- SHA-256 in `hash_password` (app.py:16-17). It is a library call; the model takes the digest function as a parameter.
- Wall-clock reading and `datetime.now().isoformat()` (app.py:120-121, 132). Times are parameters. Floating-point rounding of the clock difference and of the percentage is not modelled; both are exact reals.
- The distribution of the random sample and of the shuffle. Only their postconditions are stated: the sampled positions are distinct, and the shuffled options are a permutation.
- Aliasing between the catalog and the session copies. `q.copy()` is shallow, so the code's shuffle also reorders the catalog's own option lists; here questions are values and the catalog is left as it was. Only the order of options is affected, and the selector never reads options.
