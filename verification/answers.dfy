/** The answer store: each question id maps to either a string label or a number. */
module Answers {
  import opened Wrappers

  /** One stored answer. A cleared number field stores NaN because `parseFloat("")` is NaN. */
  datatype Answer = Num(value: real) | NaN | Str(text: string)

  /** Question id to answer; a missing key is an unanswered question. */
  type AnswerSet = map<string, Answer>

  /** `answers[id]`: the stored answer, or None for `undefined`. */
  function Get(answers: AnswerSet, id: string): (a: Option<Answer>)
    ensures a.Some? <==> id in answers
    ensures a.Some? ==> a.value == answers[id]
  {
    if id in answers then Some(answers[id]) else None
  }

  /** JavaScript's `Number(x)` on a stored answer; None stands for NaN, on
      which every comparison is false. Only numbers are numeric here. */
  function NumberOf(a: Option<Answer>): (n: Option<real>)
    ensures n.Some? <==> a.Some? && a.value.Num?
    ensures n.Some? ==> a == Some(Num(n.value))
  {
    match a
    case Some(Num(x)) => Some(x)
    case _ => None
  }

  /** `a === label`: strict equality with a string label. */
  predicate IsLabel(a: Option<Answer>, text: string)
  {
    a == Some(Str(text))
  }

  /** `a === undefined || a === ''`: the required-answer test. */
  predicate IsBlank(a: Option<Answer>)
  {
    a.None? || a == Some(Str(""))
  }

  /** `typeof a === 'number'`, which NaN also satisfies. */
  predicate IsNumber(a: Option<Answer>)
  {
    a.Some? && (a.value.Num? || a.value.NaN?)
  }

  /** `n < c` where NaN compares false. */
  predicate Below(n: Option<real>, c: real)
  {
    n.Some? && n.value < c
  }

  /** `n > c` where NaN compares false. */
  predicate Above(n: Option<real>, c: real)
  {
    n.Some? && n.value > c
  }
}
