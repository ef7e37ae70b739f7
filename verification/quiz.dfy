/** The quiz screen: its progress bar, the visibility of Previous, and the
    Next/Finish button, which either advances through `handleNext` or, on
    the last question, starts the submission and stays disabled while it
    runs. A session is then a sequence of user and transport events. */
module Quiz {
  import opened Wrappers
  import opened Answers
  import opened Catalog
  import opened Api
  import opened Session

  /** `((index + 1) / count) * 100`: strictly between 0 and 100 except on
      the last question, where it is exactly 100. */
  function Progress(index: nat, count: nat): (p: real)
    requires index < count
    ensures 0.0 < p <= 100.0
    ensures p == 100.0 <==> index == count - 1
  {
    var fraction := (index + 1) as real / count as real;
    assert fraction * count as real == (index + 1) as real;
    fraction * 100.0
  }

  /** Each step forward fills the bar further. */
  lemma {:induction false} ProgressIncreases(i: nat, j: nat, count: nat)
    requires i < j < count
    ensures Progress(i, count) < Progress(j, count)
  {
    var n := count as real;
    var a := (i + 1) as real / n;
    var b := (j + 1) as real / n;
    assert a * n == (i + 1) as real;
    assert b * n == (j + 1) as real;
    assert a < b;
  }

  /** The Previous button is visible on every question but the first. */
  predicate PreviousVisible(index: nat)
  {
    index != 0
  }

  /** Previous is shown exactly when pressing it would move. */
  lemma PreviousVisibleIffItMoves(s: App)
    ensures PreviousVisible(s.current) <==> HandlePrevious(s) != s
  {
  }

  /** The quiz screen: the session and the container's `isSubmitting` flag. */
  datatype Screen = Screen(app: App, submitting: bool)

  /** Which handler a press of the Next/Finish button calls. */
  datatype Dispatch = CallsNext | CallsSubmit

  /** The last question calls `onSubmit`, every other one `onNext`. */
  function NextClickDispatch(index: nat): (d: Dispatch)
    requires index < |Questions()|
    ensures d == CallsSubmit <==> Progress(index, |Questions()|) == 100.0
  {
    if index == |Questions()| - 1 then CallsSubmit else CallsNext
  }

  /** `handleNextClick` behind the `disabled={isSubmitting}` guard. A
      disabled button does nothing; Finish marks the screen submitting and
      starts the submission, whose promise never rejects because
      `prepareAndSubmitData` catches every error, so the flag stays set;
      any other press is `handleNext`. */
  function ClickNext(w: Screen): (v: Screen)
    requires Valid(w.app)
    ensures Valid(v.app)
    ensures w.submitting ==> v == w
    ensures !w.submitting && NextClickDispatch(w.app.current) == CallsSubmit ==>
      v == Screen(BeginSubmit(w.app), true)
    ensures !w.submitting && NextClickDispatch(w.app.current) == CallsNext ==>
      v == Screen(HandleNext(w.app).0, false)
  {
    if w.submitting then w
    else if w.app.current == |Questions()| - 1 then Screen(BeginSubmit(w.app), true)
    else Screen(HandleNext(w.app).0, false)
  }

  /** Finish submits without consulting `handleNext`: the last question's
      answer is never checked, so even a blank one is sent, though Next
      would have refused it. */
  lemma LastQuestionSkipsValidation(w: Screen)
    requires !w.submitting && w.app.current == |Questions()| - 1
    requires IsBlank(Get(w.app.answers, EnergyDrinks.id))
    ensures Valid(w.app)
    ensures HandleNext(w.app).1 == MissingAnswer
    ensures ClickNext(w).app.status == Pending && ClickNext(w).submitting
    ensures ClickNext(w).app.payload.value.answers == w.app.answers
  {
    MemberWellFormed(EnergyDrinks);
    CatalogMembers();
  }

  /** The quiz is on screen: past the welcome screen, before the results. */
  predicate InQuiz(s: App)
  {
    !s.showWelcome && !s.showResults
  }

  /** What can happen to a session. */
  datatype Event =
    | Start(name: string)
    | AnswerWith(id: string, answer: Answer)
    | ClickNextButton
    | ClickPrevious
    | Settled(delivery: Delivery)
    | ClickRestart

  /** One event: each control acts only on the screen that shows it, and the
      transport settles only a pending submission. Settling or restarting
      unmounts the quiz screen, which resets its flag. */
  function Step(w: Screen, e: Event): (v: Screen)
    requires Valid(w.app)
    ensures Valid(v.app)
    ensures e.Start? ==> v == (if w.app.showWelcome then Screen(StartQuiz(w.app, e.name), false) else w)
    ensures (e.AnswerWith? || e.ClickNextButton? || e.ClickPrevious?) && !InQuiz(w.app) ==> v == w
    ensures e.AnswerWith? && InQuiz(w.app) ==> v == w.(app := HandleAnswer(w.app, e.id, e.answer))
    ensures e.ClickNextButton? && InQuiz(w.app) ==> v == ClickNext(w)
    ensures e.ClickPrevious? && InQuiz(w.app) ==> v == w.(app := HandlePrevious(w.app))
    ensures e.Settled? ==> v == (if w.app.status == Pending then Screen(Settle(w.app, e.delivery), false) else w)
    ensures e.ClickRestart? ==> v == (if w.app.showResults then Screen(HandleRestart(w.app), false) else w)
  {
    match e
    case Start(name) => if w.app.showWelcome then Screen(StartQuiz(w.app, name), false) else w
    case AnswerWith(id, a) => if InQuiz(w.app) then w.(app := HandleAnswer(w.app, id, a)) else w
    case ClickNextButton => if InQuiz(w.app) then ClickNext(w) else w
    case ClickPrevious => if InQuiz(w.app) then w.(app := HandlePrevious(w.app)) else w
    case Settled(d) => if w.app.status == Pending then Screen(Settle(w.app, d), false) else w
    case ClickRestart => if w.app.showResults then Screen(HandleRestart(w.app), false) else w
  }

  /** What holds of every reachable screen: the current question exists, the
      button is disabled exactly while a submission is pending, a pending
      submission keeps the quiz on screen, the results are shown exactly
      after a settled submission, a payload is stored from the moment a
      submission starts, and a failure always carries a message. */
  predicate Consistent(w: Screen)
  {
    && Valid(w.app)
    && (w.submitting <==> w.app.status == Pending)
    && (w.app.status == Pending ==> InQuiz(w.app))
    && (w.app.showResults <==> w.app.status == Succeeded || w.app.status == Failed)
    && (w.app.status != Idle ==> w.app.payload.Some?)
    && (w.app.status == Failed ==> w.app.error.Some? && w.app.error.value != [])
  }

  /** The statuses follow idle, pending, then success or error, and back to
      idle only by a restart from the results. */
  predicate StatusOrder(before: Status, after: Status)
  {
    || before == after
    || (before == Idle && after == Pending)
    || (before == Pending && (after == Succeeded || after == Failed))
    || ((before == Succeeded || before == Failed) && after == Idle)
  }

  /** One event keeps a screen consistent, moves the index by at most one,
      follows the status order, and leaves the answers alone unless it is
      an answer or a restart. */
  lemma StepKeepsConsistent(w: Screen, e: Event)
    requires Consistent(w)
    ensures Consistent(Step(w, e))
    ensures StatusOrder(w.app.status, Step(w, e).app.status)
    ensures !e.ClickRestart? ==> Step(w, e).app.current <= w.app.current + 1 && w.app.current <= Step(w, e).app.current + 1
    ensures !e.AnswerWith? && !e.ClickRestart? ==> Step(w, e).app.answers == w.app.answers
  {
  }

  /** The session a sequence of events leads to. */
  function Run(w: Screen, events: seq<Event>): Screen
    requires Consistent(w)
    decreases |events|
  {
    if events == [] then w
    else
      StepKeepsConsistent(w, events[0]);
      Run(Step(w, events[0]), events[1..])
  }

  /** The screen a session starts on. */
  function Launch(isArabic: bool, isDark: bool): (w: Screen)
    ensures Consistent(w) && w.app.status == Idle && !w.submitting
  {
    Screen(Initial(isArabic, isDark), false)
  }

  /** Every screen reachable from a consistent one is consistent: the
      index stays in range, and at most one submission is ever in flight. */
  lemma {:induction false} RunKeepsConsistent(w: Screen, events: seq<Event>)
    requires Consistent(w)
    ensures Consistent(Run(w, events))
    decreases |events|
  {
    if events != [] {
      StepKeepsConsistent(w, events[0]);
      RunKeepsConsistent(Step(w, events[0]), events[1..]);
    }
  }

  /** Navigation never touches the answers: a run of Next and Previous
      presses ends with the answers it started with. */
  lemma {:induction false} NavigationKeepsAnswers(w: Screen, events: seq<Event>)
    requires Consistent(w)
    requires forall i :: 0 <= i < |events| ==> events[i].ClickNextButton? || events[i].ClickPrevious?
    ensures Run(w, events).app.answers == w.app.answers
    decreases |events|
  {
    if events != [] {
      StepKeepsConsistent(w, events[0]);
      NavigationKeepsAnswers(Step(w, events[0]), events[1..]);
    }
  }
}
