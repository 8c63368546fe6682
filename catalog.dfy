/** The question catalog: read-only records loaded once from the question file. */
module Catalog {

  type QuestionId = int

  /** One multiple-choice question; `text` is the record's "question" field. */
  datatype Question = Question(
    id: QuestionId,
    system: string,
    text: string,
    options: seq<string>,
    answer: string,
    explanation: string)

  /** No two entries share an id (the question file's own convention). */
  ghost predicate UniqueIds(qs: seq<Question>) {
    forall i, j :: 0 <= i < j < |qs| ==> qs[i].id != qs[j].id
  }

  /** Every entry lists its own answer among its options. */
  ghost predicate AnswersListed(qs: seq<Question>) {
    forall i :: 0 <= i < |qs| ==> qs[i].answer in qs[i].options
  }

  /** `copy` is `q` with its options in some (possibly different) order. */
  ghost predicate Reordered(copy: Question, q: Question) {
    && copy == q.(options := copy.options)
    && multiset(copy.options) == multiset(q.options)
  }
}
