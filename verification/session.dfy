/** The application session: the answer store, the index of the current
    question, and the submission status, advanced by pure transitions that
    mirror the handlers of the App component. Theme and language flags are
    carried along; the consent dialog, clocks and location are not modelled. */
module Session {
  import opened Wrappers
  import opened Answers
  import opened Catalog
  import Scoring
  import Feedback
  import opened Api

  datatype Status = Idle | Pending | Succeeded | Failed

  /** The state of the App component that the core reads and writes. */
  datatype App = App(
    isArabic: bool,
    isDark: bool,
    showWelcome: bool,
    showResults: bool,
    current: nat,
    answers: AnswerSet,
    userName: string,
    payload: Option<Payload>,
    status: Status,
    error: Option<string>,
    assessmentId: Option<int>)

  /** The current question exists. */
  predicate Valid(s: App)
  {
    s.current < |Questions()|
  }

  /** A fresh session with the saved language and theme flags: the welcome
      screen, the first question, no answers and nothing submitted. */
  function Initial(isArabic: bool, isDark: bool): (s: App)
    ensures Valid(s) && s.current == 0 && s.answers == map[]
    ensures s.showWelcome && !s.showResults && s.status == Idle
    ensures s.payload.None? && s.error.None? && s.assessmentId.None?
    ensures s.isArabic == isArabic && s.isDark == isDark
  {
    App(isArabic, isDark, true, false, 0, map[], "", None, Idle, None, None)
  }

  /** `handleStartQuiz`: record the name and leave the welcome screen. */
  function StartQuiz(s: App, name: string): (t: App)
    ensures !t.showWelcome && t.userName == name
    ensures t.(showWelcome := s.showWelcome, userName := s.userName) == s
  {
    s.(userName := name, showWelcome := false)
  }

  /** `handleAnswer`: store `a` under `id`, replacing any earlier answer to
      that question and leaving every other answer and field as it was. */
  function HandleAnswer(s: App, id: string, a: Answer): (t: App)
    ensures t.answers.Keys == s.answers.Keys + {id}
    ensures Get(t.answers, id) == Some(a)
    ensures forall k :: k != id ==> Get(t.answers, k) == Get(s.answers, k)
    ensures t.(answers := s.answers) == s
  {
    s.(answers := s.answers[id := a])
  }

  /** The question's validator, if it has one, accepts the answer whenever
      the answer is of type number. NaN is of type number and is accepted by
      no validator; strings and missing answers are not checked. */
  predicate Validates(q: Question, a: Option<Answer>)
  {
    q.validation.Some? && IsNumber(a) ==> a.value.Num? && q.validation.value.Accepts(a.value.value)
  }

  /** What a press of Next did. */
  datatype Outcome = Advanced | MissingAnswer | InvalidValue | AtLast

  /** `handleNext`: a required question left blank stays put, then a number
      its validator rejects stays put, and otherwise the index moves on
      unless this is the last question. Nothing but the index changes. */
  function HandleNext(s: App): (r: (App, Outcome))
    requires Valid(s)
    ensures Valid(r.0)
    ensures r.0.(current := s.current) == s
    ensures r.0.current == if r.1 == Advanced then s.current + 1 else s.current
    ensures var q := Questions()[s.current]; var a := Get(s.answers, q.id);
      && (r.1 == MissingAnswer <==> q.required && IsBlank(a))
      && (r.1 == InvalidValue <==> !(q.required && IsBlank(a)) && !Validates(q, a))
      && (r.1 == Advanced <==> !(q.required && IsBlank(a)) && Validates(q, a) && s.current < |Questions()| - 1)
  {
    var q := Questions()[s.current];
    var a := Get(s.answers, q.id);
    if q.required && IsBlank(a) then (s, MissingAnswer)
    else if q.validation.Some? && IsNumber(a) && !(a.value.Num? && q.validation.value.Accepts(a.value.value)) then (s, InvalidValue)
    else if s.current < |Questions()| - 1 then (s.(current := s.current + 1), Advanced)
    else (s, AtLast)
  }

  /** `handlePrevious`: step back one question unless at the first. */
  function HandlePrevious(s: App): (t: App)
    ensures Valid(s) ==> Valid(t)
    ensures t.(current := s.current) == s
    ensures t == s <==> s.current == 0
    ensures t.current <= s.current <= t.current + 1
  {
    if s.current > 0 then s.(current := s.current - 1) else s
  }

  /** Previous undoes a Next that advanced. */
  lemma PreviousUndoesNext(s: App)
    requires Valid(s) && HandleNext(s).1 == Advanced
    ensures HandlePrevious(HandleNext(s).0) == s
  {
  }

  /** Next redoes a Previous when the question stepped back to is answered
      acceptably. */
  lemma NextRedoesPrevious(s: App)
    requires Valid(s) && s.current > 0
    requires var q := Questions()[s.current - 1]; var a := Get(s.answers, q.id);
      !(q.required && IsBlank(a)) && Validates(q, a)
    ensures HandleNext(HandlePrevious(s)) == (s, Advanced)
  {
  }

  /** Only number questions can refuse a value: on select and slider
      questions the validator check never blocks. */
  lemma OnlyNumbersAreValidated(s: App)
    requires Valid(s) && Questions()[s.current].kind != Number
    ensures HandleNext(s).1 != InvalidValue
  {
    MemberWellFormed(Questions()[s.current]);
  }

  /** On the age question, a number advances exactly when it lies in
      [10, 120]; NaN is refused as invalid and a blank as missing. */
  lemma AgeGate(s: App)
    requires s.current == 1
    ensures Valid(s)
    ensures forall x: real :: Get(s.answers, Age.id) == Some(Num(x)) ==> (HandleNext(s).1 == Advanced <==> 10.0 <= x <= 120.0)
    ensures Get(s.answers, Age.id) == Some(NaN) ==> HandleNext(s).1 == InvalidValue
    ensures IsBlank(Get(s.answers, Age.id)) ==> HandleNext(s).1 == MissingAnswer
  {
    assert Questions()[1] == Age;
  }

  /** `handleRestart`: a fresh session with the same language and theme. */
  function HandleRestart(s: App): (t: App)
    ensures t == Initial(s.isArabic, s.isDark)
  {
    App(s.isArabic, s.isDark, true, false, 0, map[], "", None, Idle, None, None)
  }

  /** The payload `prepareAndSubmitData` builds: the stored answers as they
      are, the BMI and the score computed from them, the language and theme
      of the session, and the name or none when it is empty. */
  function BuildPayload(s: App): (p: Payload)
    ensures p.answers == s.answers
    ensures p.bmi == Scoring.CalculateBmi(s.answers) && p.bmi >= 0.0
    ensures p.score == Scoring.CalculateScore(s.answers, p.bmi, Scoring.AsWritten) && 0 <= p.score <= 100
    ensures p.language == (if s.isArabic then Ar else En)
    ensures p.userName.None? <==> s.userName == ""
  {
    var bmi := Scoring.CalculateBmi(s.answers);
    Payload(
      if s.userName == "" then None else Some(s.userName),
      s.answers,
      if s.isArabic then Ar else En,
      if s.isDark then Dark else Light,
      Scoring.CalculateScore(s.answers, bmi, Scoring.AsWritten),
      bmi)
  }

  /** The message App shows when the submission fails. */
  const FallbackError := "Failed to submit results. Please try again."

  /** `error.message || fallback`: the message shown for a failure is never
      empty, and is the thrown message whenever that is not empty. */
  function ErrorText(f: Failure): (msg: string)
    ensures msg != []
    ensures ThrownMessage(f) != [] ==> msg == ThrownMessage(f)
    ensures f.HttpFailure? ==> msg == ThrownMessage(f)
  {
    var thrown := ThrownMessage(f);
    if thrown != [] then thrown else FallbackError
  }

  /** The synchronous part of `prepareAndSubmitData`: status pending, error
      cleared, and the payload stored before the request is sent. */
  function BeginSubmit(s: App): (t: App)
    ensures t.status == Pending && t.error.None? && t.payload == Some(BuildPayload(s))
    ensures t.(status := s.status, error := s.error, payload := s.payload) == s
  {
    s.(status := Pending, error := None, payload := Some(BuildPayload(s)))
  }

  /** The end of `prepareAndSubmitData` once the transport settles: success
      records the assessment id, failure records a non-empty message, and
      both show the results. */
  function Settle(s: App, d: Delivery): (t: App)
    ensures t.showResults
    ensures t.status == Succeeded <==> d.Delivered?
    ensures t.status == Failed <==> d.Rejected?
    ensures d.Delivered? ==> t.assessmentId == d.assessmentId && t.error == s.error
    ensures d.Rejected? ==> t.error == Some(ErrorText(d.failure)) && t.error.value != [] && t.assessmentId == s.assessmentId
    ensures t.(showResults := s.showResults, status := s.status, error := s.error, assessmentId := s.assessmentId) == s
  {
    match d
    case Delivered(id) => s.(assessmentId := id, status := Succeeded, showResults := true)
    case Rejected(f) => s.(error := Some(ErrorText(f)), status := Failed, showResults := true)
  }

  /** `prepareAndSubmitData` as the two states it passes through: pending
      with the payload stored, then exactly one of success or failure. */
  function PrepareAndSubmit(s: App, d: Delivery): (r: (App, App))
    ensures r.0.status == Pending && r.0.error.None?
    ensures r.1.status == Succeeded || r.1.status == Failed
    ensures r.1.showResults
    ensures r.1.status == Failed ==> r.1.error.Some? && r.1.error.value != []
    ensures r.0.payload == r.1.payload == Some(BuildPayload(s))
  {
    var pending := BeginSubmit(s);
    (pending, Settle(pending, d))
  }

  /** `getFeedbackForResults`: nothing before a payload is stored, then the
      feedback of the stored payload's BMI and answers. */
  function ResultsFeedback(s: App): (b: Option<Feedback.Bundle>)
    ensures b.None? <==> s.payload.None?
    ensures b.Some? ==> b.value == Feedback.FeedbackFor(s.payload.value.bmi, s.payload.value.answers, Scoring.AsWritten)
    ensures b.Some? ==> b.value.bmi == Feedback.BmiFeedback(s.payload.value.bmi)
    ensures b.Some? ==> b.value.lifestyle == Feedback.LifestyleFeedback(s.payload.value.answers)
  {
    match s.payload
    case None => None
    case Some(p) => Some(Feedback.FeedbackFor(p.bmi, p.answers, Scoring.AsWritten))
  }

  /** The results screen reads its feedback from the stored payload, which
      holds the session's own labels even when the server was sent their
      English translation. For answers the select inputs can store, that
      feedback is the one the labels sent would give, except in an Arabic
      session whose nutrition answer is the catalog's Arabic 3-4 option: it
      reads good on screen and would read moderate once translated. */
  lemma ResultsUseKeptLabels(s: App, d: Delivery)
    requires Api.SelectAnswersOffered(s.answers)
    ensures var settled := PrepareAndSubmit(s, d).1;
      && settled.payload.value.answers == s.answers
      && ResultsFeedback(settled) == Some(Feedback.FeedbackFor(Scoring.CalculateBmi(s.answers), s.answers, Scoring.AsWritten))
    ensures var settled := PrepareAndSubmit(s, d).1;
      var sent := Feedback.FeedbackFor(Scoring.CalculateBmi(s.answers), Transmitted(settled.payload.value).answers, Scoring.AsWritten);
      var odd := s.isArabic && Get(s.answers, NutritionServings.id) == Some(Str("3-4 حصص"));
      && (!odd ==> ResultsFeedback(settled) == Some(sent))
      && (odd ==> ResultsFeedback(settled) == Some(sent.(nutrition := Feedback.Good)) && sent.nutrition == Feedback.Moderate)
  {
    var p := BuildPayload(s);
    var settled := PrepareAndSubmit(s, d).1;
    assert settled.payload == Some(p);
    if s.isArabic {
      assert Transmitted(p).answers == TranslateAnswers(s.answers);
      FeedbackAsWrittenUnderTranslation(s.answers, p.bmi);
    } else {
      assert Transmitted(p) == p;
    }
  }
}
