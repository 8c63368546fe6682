/**
 * A user's progress record: the attempted / correct / incorrect / marked id
 * sets, the confidence map and the per-question statistics, and the updates
 * that a submitted answer, a confidence choice and the review mark make.
 */
module ProgressRecord {
  import opened Wrappers
  import opened Catalog

  datatype Confidence = Low | Medium | High

  /** The time of an answer, as the clock's ISO text; the model never looks inside it. */
  type Timestamp = string

  /** Per-question counters; a fresh entry has no `lastSeen` until the first answer stamps it. */
  datatype Stat = Stat(attempts: nat, correct: nat, incorrect: nat, lastSeen: Option<Timestamp>) {
    /** Every attempt was counted as exactly one of correct or incorrect. */
    predicate Balanced() {
      attempts == correct + incorrect
    }
  }

  /** The entry inserted for a question answered for the first time. */
  const FreshStat := Stat(0, 0, 0, None)

  /** `s` with `x` added (`member`) or discarded (not `member`); nothing else changes. */
  function Assign(s: set<QuestionId>, x: QuestionId, member: bool): (r: set<QuestionId>)
    ensures x in r <==> member
    ensures forall y :: y != x ==> (y in r <==> y in s)
  {
    if member then s + {x} else s - {x}
  }

  /** Setting a membership twice to the same value is the same as setting it once. */
  lemma AssignIdempotent(s: set<QuestionId>, x: QuestionId, member: bool)
    ensures Assign(Assign(s, x, member), x, member) == Assign(s, x, member)
  {
  }

  /** The statistics after one answer to `qid`, correct or not, at time `now`. */
  function StatsAfter(stats: map<QuestionId, Stat>, qid: QuestionId, ok: bool, now: Timestamp): (r: map<QuestionId, Stat>)
    ensures r.Keys == stats.Keys + {qid}
    ensures forall id :: id in stats && id != qid ==> r[id] == stats[id]
    ensures var before := if qid in stats then stats[qid] else FreshStat;
      && r[qid].attempts == before.attempts + 1
      && r[qid].correct == before.correct + (if ok then 1 else 0)
      && r[qid].incorrect == before.incorrect + (if ok then 0 else 1)
      && r[qid].lastSeen == Some(now)
  {
    var s := if qid in stats then stats[qid] else FreshStat;
    stats[qid := Stat(s.attempts + 1, s.correct + (if ok then 1 else 0), s.incorrect + (if ok then 0 else 1), Some(now))]
  }

  /** `correct` and `incorrect` never share an id, and both lie within `attempted`. */
  ghost predicate Classified(attempted: set<QuestionId>, correct: set<QuestionId>, incorrect: set<QuestionId>) {
    && correct !! incorrect
    && correct <= attempted
    && incorrect <= attempted
  }

  /**
   * The statistics agree with the sets: exactly the attempted ids have an
   * entry, every entry is balanced, and an id's current classification has
   * been counted at least once.
   */
  ghost predicate Tallied(attempted: set<QuestionId>, correct: set<QuestionId>, incorrect: set<QuestionId>,
                          stats: map<QuestionId, Stat>) {
    && stats.Keys == attempted
    && (forall id :: id in stats ==> stats[id].Balanced())
    && (forall id :: id in correct ==> id in stats && stats[id].correct > 0)
    && (forall id :: id in incorrect ==> id in stats && stats[id].incorrect > 0)
  }

  /** One submitted answer keeps the sets classified and the statistics tallied. */
  lemma AnswerKeepsRecordConsistent(attempted: set<QuestionId>, correct: set<QuestionId>, incorrect: set<QuestionId>,
                                    stats: map<QuestionId, Stat>, qid: QuestionId, ok: bool, now: Timestamp)
    requires Classified(attempted, correct, incorrect)
    requires Tallied(attempted, correct, incorrect, stats)
    ensures Classified(attempted + {qid}, Assign(correct, qid, ok), Assign(incorrect, qid, !ok))
    ensures Tallied(attempted + {qid}, Assign(correct, qid, ok), Assign(incorrect, qid, !ok), StatsAfter(stats, qid, ok, now))
  {
  }

  /**
   * The record after a correct and then an incorrect answer to the same
   * question: the id ends incorrect, not correct, its entry gains two
   * attempts, one of each kind, and carries the second time; for a question
   * never seen before the entry is exactly two attempts, one of each.
   */
  lemma CorrectThenIncorrect(attempted: set<QuestionId>, correct: set<QuestionId>, incorrect: set<QuestionId>,
                             stats: map<QuestionId, Stat>, qid: QuestionId, t1: Timestamp, t2: Timestamp)
    ensures var correct' := Assign(Assign(correct, qid, true), qid, false);
      var incorrect' := Assign(Assign(incorrect, qid, false), qid, true);
      var stats' := StatsAfter(StatsAfter(stats, qid, true, t1), qid, false, t2);
      var before := if qid in stats then stats[qid] else FreshStat;
      && qid !in correct' && qid in incorrect'
      && stats'[qid] == Stat(before.attempts + 2, before.correct + 1, before.incorrect + 1, Some(t2))
      && (qid !in stats ==> stats'[qid] == Stat(2, 1, 1, Some(t2)))
  {
  }

  /** The progress record held in memory for the logged-in user. */
  class Progress {
    var attempted: set<QuestionId>
    var correct: set<QuestionId>
    var incorrect: set<QuestionId>
    var marked: set<QuestionId>
    var confidence: map<QuestionId, Confidence>
    var stats: map<QuestionId, Stat>

    ghost predicate Valid()
      reads this
    {
      && Classified(attempted, correct, incorrect)
      && Tallied(attempted, correct, incorrect, stats)
    }

    /** The empty record a new user starts with. */
    constructor ()
      ensures attempted == {} && correct == {} && incorrect == {} && marked == {}
      ensures confidence == map[] && stats == map[]
      ensures Valid()
    {
      attempted, correct, incorrect, marked := {}, {}, {}, {};
      confidence, stats := map[], map[];
    }

    /** The set updates of a submitted answer: attempted, then discard from both, then add to the one that applies. */
    method RecordAnswer(qid: QuestionId, ok: bool)
      modifies this`attempted, this`correct, this`incorrect
      ensures attempted == old(attempted) + {qid}
      ensures correct == Assign(old(correct), qid, ok)
      ensures incorrect == Assign(old(incorrect), qid, !ok)
      ensures old(Classified(attempted, correct, incorrect)) ==> Classified(attempted, correct, incorrect)
    {
      attempted := attempted + {qid};
      correct := correct - {qid};
      incorrect := incorrect - {qid};
      if ok {
        correct := correct + {qid};
      } else {
        incorrect := incorrect + {qid};
      }
    }

    /** Bumps the counters of `qid`, inserting a zeroed entry first when there is none. */
    method SaveStats(qid: QuestionId, ok: bool, now: Timestamp)
      modifies this`stats
      ensures stats == StatsAfter(old(stats), qid, ok, now)
      ensures forall id :: id in old(stats) && old(stats[id].Balanced()) ==> stats[id].Balanced()
    {
      if qid !in stats {
        stats := stats[qid := FreshStat];
      }
      var s := stats[qid];
      s := s.(attempts := s.attempts + 1);
      s := s.(correct := s.correct + if ok then 1 else 0);
      s := s.(incorrect := s.incorrect + if ok then 0 else 1);
      s := s.(lastSeen := Some(now));
      stats := stats[qid := s];
    }

    /** The latest confidence choice for `qid` replaces any earlier one. */
    method SetConfidence(qid: QuestionId, level: Confidence)
      modifies this`confidence
      ensures confidence == old(confidence)[qid := level]
      ensures old(Valid()) ==> Valid()
    {
      confidence := confidence[qid := level];
    }

    /** The review mark follows the checkbox: added when checked, discarded otherwise. */
    method SetMarked(qid: QuestionId, checked: bool)
      modifies this`marked
      ensures marked == Assign(old(marked), qid, checked)
      ensures old(Valid()) ==> Valid()
    {
      if checked {
        marked := marked + {qid};
      } else {
        marked := marked - {qid};
      }
    }
  }
}
