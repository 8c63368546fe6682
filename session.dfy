/**
 * The session state machine: start, the countdown of a timed session,
 * answer submission, advancing to the next question, the summary, and the
 * return to set-up.
 */
module QuizSession {
  import opened Wrappers
  import opened Catalog
  import opened Selection
  import opened ProgressRecord

  /** Reading mode shows explanations and is untimed; test mode runs against a time budget. */
  datatype Mode = Reading | Test

  /** The bounds of the question-count slider. */
  const MinQuestions: nat := 5
  const MaxQuestions: nat := 100

  /** The time budget per question in a test session, in seconds. */
  const SecondsPerQuestion: nat := 90

  /** The time limit stored at start: 90 seconds per question in test mode, none in reading mode. */
  function TimeLimit(mode: Mode, numQ: nat): (r: Option<nat>)
    ensures r.Some? <==> mode == Test
    ensures r.Some? ==> r.value == SecondsPerQuestion * numQ
  {
    if mode == Test then Some(SecondsPerQuestion * numQ) else None
  }

  /** Whole seconds since `start`: the difference of two clock readings converted to an integer by truncation toward zero. */
  function Elapsed(now: real, start: real): (r: int)
    ensures start <= now ==> 0 <= r && r as real <= now - start < r as real + 1.0
    ensures now < start ==> r <= 0 && now - start <= r as real < now - start + 1.0
  {
    var d := now - start;
    if d >= 0.0 then d.Floor else -((-d).Floor)
  }

  /** The seconds left on the clock, clamped at zero. */
  function Remaining(limit: int, elapsed: int): (r: nat)
    ensures r == 0 <==> limit <= elapsed
    ensures limit > elapsed ==> r == limit - elapsed
  {
    if limit - elapsed > 0 then limit - elapsed else 0
  }

  /** A question counts toward the score iff an answer is recorded for its id and equals its answer. */
  predicate AnsweredCorrectly(q: Question, answers: map<QuestionId, string>) {
    q.id in answers && answers[q.id] == q.answer
  }

  /** The summary score: how many session questions were answered correctly. */
  function Score(qs: seq<Question>, answers: map<QuestionId, string>): (r: nat)
    ensures r <= |qs|
  {
    if qs == [] then 0
    else Score(qs[..|qs| - 1], answers) + (if AnsweredCorrectly(qs[|qs| - 1], answers) then 1 else 0)
  }

  /** The positions of the correctly answered questions. */
  ghost function CorrectPositions(qs: seq<Question>, answers: map<QuestionId, string>): set<int> {
    set i | 0 <= i < |qs| && AnsweredCorrectly(qs[i], answers)
  }

  /** The positions of the questions that have any recorded answer. */
  ghost function AnsweredPositions(qs: seq<Question>, answers: map<QuestionId, string>): set<int> {
    set i | 0 <= i < |qs| && qs[i].id in answers
  }

  /** The score is exactly the number of positions whose question was answered correctly. */
  lemma {:induction false} ScoreCountsCorrect(qs: seq<Question>, answers: map<QuestionId, string>)
    ensures Score(qs, answers) == |CorrectPositions(qs, answers)|
  {
    if qs != [] {
      var n := |qs| - 1;
      var init := qs[..n];
      ScoreCountsCorrect(init, answers);
      var before := CorrectPositions(init, answers);
      assert n !in before;
      if AnsweredCorrectly(qs[n], answers) {
        assert CorrectPositions(qs, answers) == before + {n};
      } else {
        assert CorrectPositions(qs, answers) == before;
      }
    }
  }

  /** Unanswered questions contribute nothing: the score never exceeds the number of answered questions. */
  lemma {:induction false} ScoreAtMostAnswered(qs: seq<Question>, answers: map<QuestionId, string>)
    ensures Score(qs, answers) <= |AnsweredPositions(qs, answers)|
  {
    if qs != [] {
      var n := |qs| - 1;
      var init := qs[..n];
      ScoreAtMostAnswered(init, answers);
      var before := AnsweredPositions(init, answers);
      assert n !in before;
      if qs[n].id in answers {
        assert AnsweredPositions(qs, answers) == before + {n};
      } else {
        assert AnsweredPositions(qs, answers) == before;
      }
    }
  }

  /** A session with every question answered correctly scores full marks. */
  lemma {:induction false} ScoreAllCorrect(qs: seq<Question>, answers: map<QuestionId, string>)
    requires forall i :: 0 <= i < |qs| ==> AnsweredCorrectly(qs[i], answers)
    ensures Score(qs, answers) == |qs|
  {
    if qs != [] {
      ScoreAllCorrect(qs[..|qs| - 1], answers);
    }
  }

  /** The percentage shown beside the score; the division needs at least one question. */
  function Percent(score: nat, total: nat): (r: real)
    requires total > 0
    ensures score <= total ==> 0.0 <= r <= 100.0
    ensures r == 100.0 <==> score == total
  {
    score as real / total as real * 100.0
  }

  /** The ids of a list of questions. */
  ghost function Ids(qs: seq<Question>): set<QuestionId> {
    set q | q in qs :: q.id
  }

  /**
   * Three questions with only the first answered, correctly: the score is
   * one, the two unanswered questions count against it.
   */
  lemma ScoreOneOfThree(q0: Question, q1: Question, q2: Question)
    requires q0.id != q1.id && q0.id != q2.id
    ensures Score([q0, q1, q2], map[q0.id := q0.answer]) == 1
  {
    var answers := map[q0.id := q0.answer];
    assert [q0][..0] == [];
    assert Score([q0], answers) == 1;
    assert [q0, q1][..1] == [q0];
    assert Score([q0, q1], answers) == 1;
    assert [q0, q1, q2][..2] == [q0, q1];
  }

  /** What the summary screen reports. */
  datatype Summary = Summary(score: nat, total: nat, percent: real)

  /** What a press of the start button did. */
  datatype StartOutcome = Started | AlreadyRunning | NotEnoughQuestions(available: nat)

  /** The session record of the interactive state. */
  class Session {
    var started: bool
    var startTime: Option<real>
    var currentIndex: nat
    var questions: seq<Question>
    var answers: map<QuestionId, string>
    var showFeedback: bool
    var over: bool
    var mode: Mode
    var timeLimit: Option<nat>

    /**
     * The index stays within the questions and points at one while the
     * session runs; a started session has its start time and the limit its
     * mode calls for; a session that ran holds a slider-sized question list.
     */
    ghost predicate Valid()
      reads this
    {
      && currentIndex <= |questions|
      && (started && !over ==> currentIndex < |questions|)
      && (started ==> startTime.Some? && timeLimit == TimeLimit(mode, |questions|))
      && (started || over ==> MinQuestions <= |questions| <= MaxQuestions)
      && answers.Keys <= Ids(questions)
    }

    /** The state before any session has started. */
    constructor ()
      ensures !started && startTime == None && currentIndex == 0 && questions == []
      ensures answers == map[] && !showFeedback && !over && mode == Reading && timeLimit == None
      ensures Valid()
    {
      started, startTime, currentIndex, questions := false, None, 0, [];
      answers, showFeedback, over, mode, timeLimit := map[], false, false, Reading, None;
    }

    /**
     * The start button. Ignored while a session is running; refused, with the
     * state untouched, when fewer than `numQ` questions qualify; otherwise a
     * fresh session over the drawn questions.
     */
    method Start(catalog: seq<Question>, progress: Progress, systems: set<string>, filters: set<StatusFilter>,
                 numQ: nat, m: Mode, now: real, sample: seq<nat>, rand: (nat, nat) -> nat)
      returns (outcome: StartOutcome)
      requires Valid()
      requires MinQuestions <= numQ <= MaxQuestions
      requires numQ <= |Pool(catalog, systems, filters, progress.attempted, progress.incorrect, progress.marked)| ==>
                 IsSample(sample, |Pool(catalog, systems, filters, progress.attempted, progress.incorrect, progress.marked)|, numQ)
      modifies this
      ensures Valid()
      ensures old(started) ==> outcome == AlreadyRunning && unchanged(this)
      ensures var pool := Pool(catalog, systems, filters, progress.attempted, progress.incorrect, progress.marked);
        !old(started) && |pool| < numQ ==> outcome == NotEnoughQuestions(|pool|) && unchanged(this)
      ensures var pool := Pool(catalog, systems, filters, progress.attempted, progress.incorrect, progress.marked);
        !old(started) && numQ <= |pool| ==>
          && outcome == Started
          && started && startTime == Some(now) && currentIndex == 0 && answers == map[]
          && !showFeedback && !over && mode == m && timeLimit == TimeLimit(m, numQ)
          && |questions| == numQ
          && (forall k :: 0 <= k < numQ ==> Reordered(questions[k], pool[sample[k]]))
          && (forall q :: q in questions ==>
                (systems == {} || q.system in systems) && Allow(q.id, filters, progress.attempted, progress.incorrect, progress.marked))
          && (UniqueIds(catalog) ==> UniqueIds(questions))
          && (AnswersListed(catalog) ==> AnswersListed(questions))
    {
      if started {
        return AlreadyRunning;
      }
      ghost var pool := Pool(catalog, systems, filters, progress.attempted, progress.incorrect, progress.marked);
      var r := Select(catalog, systems, filters, progress.attempted, progress.incorrect, progress.marked, numQ, sample, rand);
      if r.Err? {
        return NotEnoughQuestions(r.error.available);
      }
      Begin(r.value, m, now);
      outcome := Started;
    }

    /** Installs a freshly drawn session: the effect of the state update that follows a successful draw. */
    method Begin(selected: seq<Question>, m: Mode, now: real)
      requires MinQuestions <= |selected| <= MaxQuestions
      modifies this
      ensures Valid()
      ensures started && startTime == Some(now) && currentIndex == 0 && questions == selected
      ensures answers == map[] && !showFeedback && !over && mode == m && timeLimit == TimeLimit(m, |selected|)
    {
      started, startTime, currentIndex, questions := true, Some(now), 0, selected;
      answers, showFeedback, over, mode, timeLimit := map[], false, false, m, TimeLimit(m, |selected|);
    }

    /** The clock has run out on a running test session (the remaining time has reached zero). */
    predicate TimeUp(now: real)
      reads this
      requires Valid()
    {
      started && mode == Test && Remaining(timeLimit.value, Elapsed(now, startTime.value)) == 0
    }

    /**
     * The countdown check made at the start of every interaction with a
     * running test session: the session ends once no time remains. Reading
     * sessions only display the elapsed time.
     */
    method Tick(now: real)
      requires Valid()
      modifies this`over
      ensures Valid()
      ensures over == (old(over) || old(TimeUp(now)))
    {
      if started && !over {
        if mode == Test {
          var remaining := Remaining(timeLimit.value, Elapsed(now, startTime.value));
          if remaining == 0 {
            over := true;
          }
        }
      }
    }

    /** The question on screen while the session runs. */
    function Current(): (q: Question)
      reads this
      requires Valid() && started && !over
      ensures q in questions
    {
      questions[currentIndex]
    }

    /**
     * The confidence selector and the review checkbox, shown with the
     * feedback: every run of the script that reaches them records the
     * selector's `level` as the current question's confidence and makes its
     * mark follow `checked`.
     */
    method ApplyReview(progress: Progress, level: Confidence, checked: bool)
      requires Valid() && started && !over
      modifies progress`confidence, progress`marked
      ensures var id := questions[currentIndex].id;
        && progress.confidence == old(progress.confidence)[id := level]
        && progress.marked == Assign(old(progress.marked), id, checked)
      ensures old(progress.Valid()) ==> progress.Valid()
    {
      var id := questions[currentIndex].id;
      progress.SetConfidence(id, level);
      progress.SetMarked(id, checked);
    }

    /**
     * The submit button, pressed at clock reading `clock` (`stamp` is the same
     * moment as text), with the confidence selector at `level` and the review
     * checkbox at `checked`. The interaction first runs the countdown check;
     * if that ends the session, the summary takes over and the answer is
     * dropped. Otherwise `choice` becomes this session's answer to the
     * current question, overwriting an earlier one, the progress sets and
     * statistics are updated, the feedback turns on, and the same run goes on
     * to the confidence and mark widgets shown with it.
     */
    method Submit(progress: Progress, choice: string, level: Confidence, checked: bool,
                  clock: real, stamp: Timestamp) returns (handled: bool)
      requires Valid() && started && !over
      requires choice in questions[currentIndex].options
      modifies this`answers, this`showFeedback, this`over, progress
      ensures Valid()
      ensures handled <==> !old(TimeUp(clock))
      ensures !handled ==>
        && over && answers == old(answers) && showFeedback == old(showFeedback)
        && unchanged(progress)
      ensures handled ==> var q := old(questions[currentIndex]);
        && !over
        && answers == old(answers)[q.id := choice]
        && showFeedback
        && progress.attempted == old(progress.attempted) + {q.id}
        && progress.correct == Assign(old(progress.correct), q.id, choice == q.answer)
        && progress.incorrect == Assign(old(progress.incorrect), q.id, choice != q.answer)
        && progress.stats == StatsAfter(old(progress.stats), q.id, choice == q.answer, stamp)
        && progress.confidence == old(progress.confidence)[q.id := level]
        && progress.marked == Assign(old(progress.marked), q.id, checked)
      ensures old(progress.Valid()) ==> progress.Valid()
    {
      Tick(clock);
      if over {
        return false;
      }
      var q := questions[currentIndex];
      answers := answers[q.id := choice];
      var ok := choice == q.answer;
      ghost var before := (progress.attempted, progress.correct, progress.incorrect, progress.stats);
      progress.RecordAnswer(q.id, ok);
      progress.SaveStats(q.id, ok, stamp);
      if old(progress.Valid()) {
        AnswerKeepsRecordConsistent(before.0, before.1, before.2, before.3, q.id, ok, stamp);
      }
      showFeedback := true;
      ApplyReview(progress, level, checked);
      handled := true;
    }

    /**
     * Any other run of the script while the feedback is shown (a change of
     * the confidence selector or of the review checkbox), at clock reading
     * `clock`. After the countdown check, if the session still runs, the
     * confidence and mark widgets record their values.
     */
    method Review(progress: Progress, level: Confidence, checked: bool, clock: real) returns (handled: bool)
      requires Valid() && started && !over && showFeedback
      modifies this`over, progress`confidence, progress`marked
      ensures Valid()
      ensures handled <==> !old(TimeUp(clock))
      ensures !handled ==> over && unchanged(progress)
      ensures handled ==> var id := old(questions[currentIndex].id);
        && !over
        && progress.confidence == old(progress.confidence)[id := level]
        && progress.marked == Assign(old(progress.marked), id, checked)
      ensures old(progress.Valid()) ==> progress.Valid()
    {
      Tick(clock);
      if over {
        return false;
      }
      ApplyReview(progress, level, checked);
      handled := true;
    }

    /**
     * The next button, shown with the feedback, pressed at clock reading
     * `clock`, with the confidence selector at `level` and the review checkbox
     * at `checked`. After the countdown check, if the session still runs, the
     * run passes the confidence and mark widgets (recording them for the
     * current question) and then moves to the following question, hides the
     * feedback, and ends the session after the last one.
     */
    method Advance(progress: Progress, level: Confidence, checked: bool, clock: real) returns (handled: bool)
      requires Valid() && started && !over && showFeedback
      modifies this`currentIndex, this`showFeedback, this`over, progress`confidence, progress`marked
      ensures Valid()
      ensures handled <==> !old(TimeUp(clock))
      ensures !handled ==>
        && over && currentIndex == old(currentIndex) && showFeedback
        && unchanged(progress)
      ensures handled ==> var id := old(questions[currentIndex].id);
        && progress.confidence == old(progress.confidence)[id := level]
        && progress.marked == Assign(old(progress.marked), id, checked)
        && currentIndex == old(currentIndex) + 1 && !showFeedback
        && (over <==> currentIndex >= |questions|)
      ensures old(progress.Valid()) ==> progress.Valid()
    {
      Tick(clock);
      if over {
        return false;
      }
      ApplyReview(progress, level, checked);
      currentIndex := currentIndex + 1;
      showFeedback := false;
      if currentIndex >= |questions| {
        over := true;
      }
      handled := true;
    }

    /** The summary of a finished session: the score out of the number of session questions. */
    function Report(): (r: Summary)
      reads this
      requires Valid() && over
      ensures r.total == |questions| > 0
      ensures r.score <= r.total && 0.0 <= r.percent <= 100.0
      ensures r.score == |CorrectPositions(questions, answers)|
      ensures r.percent == Percent(r.score, r.total)
    {
      ScoreCountsCorrect(questions, answers);
      var score := Score(questions, answers);
      Summary(score, |questions|, Percent(score, |questions|))
    }

    /** The new-session button of the summary screen: clears only `started`. */
    method NewSession()
      requires Valid() && over
      modifies this`started
      ensures Valid() && !started
    {
      started := false;
    }
  }
}
