/** The submission client, without its transport: the canonicalisation of an
    Arabic session's answers to English labels before they are sent, the
    language gate that decides whether to canonicalise, and the message of
    the error a failed submission throws. */
module Api {
  import opened Wrappers
  import opened Answers
  import opened Catalog
  import opened Translations
  import Scoring
  import Feedback

  datatype Theme = Light | Dark

  /** The parts of a result submission the core computes; device, location
      and time information are not modelled. */
  datatype Payload = Payload(
    userName: Option<string>,
    answers: AnswerSet,
    language: Language,
    theme: Theme,
    score: int,
    bmi: real)

  /** `answerTranslationMap[value] || value`: the English label for a table
      key, any other string unchanged. The result is never itself a key, and
      a changed label is always a positional pair of the catalog. */
  function TranslateLabel(s: string): (t: string)
    ensures Lookup(t).None?
    ensures Lookup(s).None? ==> t == s
    ensures t != s ==> CatalogPair(s, t)
  {
    match Lookup(s)
    case Some(e) =>
      EntriesFromCatalog(s);
      e
    case None => s
  }

  /** One stored answer: strings are translated, numbers pass through. */
  function TranslateAnswer(a: Answer): (b: Answer)
    ensures a.Str? <==> b.Str?
    ensures !a.Str? ==> b == a
    ensures a.Str? ==> b == Str(TranslateLabel(a.text))
    ensures b.Str? ==> Lookup(b.text).None?
  {
    match a
    case Str(s) => Str(TranslateLabel(s))
    case _ => a
  }

  /** A looked-up answer, translated if present. */
  function TranslateOpt(a: Option<Answer>): (b: Option<Answer>)
    ensures a.None? <==> b.None?
    ensures a.Some? ==> b == Some(TranslateAnswer(a.value))
  {
    match a
    case Some(x) => Some(TranslateAnswer(x))
    case None => None
  }

  /** No stored string is a key of the translation table. */
  predicate Canonical(answers: AnswerSet)
  {
    forall k :: k in answers && answers[k].Str? ==> Lookup(answers[k].text).None?
  }

  /** `translateAnswersToEnglish` as a map: same keys, every answer translated. */
  function TranslateAnswers(m: AnswerSet): (r: AnswerSet)
    ensures r.Keys == m.Keys
    ensures forall k :: k in m ==> r[k] == TranslateAnswer(m[k])
    ensures Canonical(r)
  {
    map k | k in m :: TranslateAnswer(m[k])
  }

  /** `translateAnswersToEnglish`, key by key over the input: a fresh map
      with the input's keys, numbers copied and strings translated. */
  method TranslateAnswersToEnglish(original: AnswerSet) returns (translated: AnswerSet)
    ensures translated.Keys == original.Keys
    ensures forall k :: k in original && !original[k].Str? ==> translated[k] == original[k]
    ensures forall k :: k in original && original[k].Str? ==> translated[k] == Str(TranslateLabel(original[k].text))
    ensures Canonical(translated)
  {
    translated := map[];
    var pending := original.Keys;
    while pending != {}
      invariant pending <= original.Keys
      invariant translated.Keys == original.Keys - pending
      invariant forall k :: k in translated ==> translated[k] == TranslateAnswer(original[k])
      decreases pending
    {
      var key :| key in pending;
      var value := original[key];
      if value.Str? {
        translated := translated[key := Str(TranslateLabel(value.text))];
      } else {
        translated := translated[key := value];
      }
      pending := pending - {key};
    }
  }

  /** Translating an already translated label changes nothing. */
  lemma TranslateLabelIdempotent(s: string)
    ensures TranslateLabel(TranslateLabel(s)) == TranslateLabel(s)
  {
  }

  /** Translating twice is translating once. */
  lemma TranslateAnswersIdempotent(m: AnswerSet)
    ensures TranslateAnswers(TranslateAnswers(m)) == TranslateAnswers(m)
  {
    var once := TranslateAnswers(m);
    forall k | k in once
      ensures TranslateAnswer(once[k]) == once[k]
    {
      if m[k].Str? {
        TranslateLabelIdempotent(m[k].text);
      }
    }
  }

  /** The Arabic option at position i of a catalog question becomes the
      English option at position i, and the English option stays as it is. */
  lemma OptionsTranslatePositionally(q: Question, i: int)
    requires q in Questions() && 0 <= i < |OptionsIn(q, Ar)|
    ensures i < |OptionsIn(q, En)|
    ensures TranslateLabel(OptionsIn(q, Ar)[i]) == OptionsIn(q, En)[i]
    ensures TranslateLabel(OptionsIn(q, En)[i]) == OptionsIn(q, En)[i]
  {
    MemberWellFormed(q);
    CatalogPairing();
    assert TranslatesPositionally(q);
    var e := OptionsIn(q, En)[i];
    assert e in OptionsIn(q, En);
    assert !ArabicScript(e);
  }

  /** Within one question no two Arabic options share a translation. */
  lemma InjectiveWithinQuestion(q: Question, i: int, j: int)
    requires q in Questions() && 0 <= i < j < |OptionsIn(q, Ar)|
    ensures TranslateLabel(OptionsIn(q, Ar)[i]) != TranslateLabel(OptionsIn(q, Ar)[j])
  {
    OptionsTranslatePositionally(q, i);
    OptionsTranslatePositionally(q, j);
    MemberWellFormed(q);
    assert DistinctLabels(OptionsIn(q, En));
  }

  /** Across questions the table is not injective: the first Arabic options
      of the conditions and the coffee question differ but both become
      "None", and the smoking and the energy-drink question share the key
      of their first option, which becomes the first English option of both. */
  lemma NotInjectiveAcrossQuestions()
    ensures OptionsIn(ChronicConditions, Ar)[0] != OptionsIn(Coffee, Ar)[0]
    ensures TranslateLabel(OptionsIn(ChronicConditions, Ar)[0]) == TranslateLabel(OptionsIn(Coffee, Ar)[0]) == "None"
    ensures OptionsIn(Smoking, Ar)[0] == OptionsIn(EnergyDrinks, Ar)[0]
    ensures OptionsIn(Smoking, En)[0] == OptionsIn(EnergyDrinks, En)[0] == TranslateLabel(OptionsIn(Smoking, Ar)[0])
  {
    CatalogMembers();
    OptionsTranslatePositionally(ChronicConditions, 0);
    OptionsTranslatePositionally(Coffee, 0);
    OptionsTranslatePositionally(Smoking, 0);
  }

  /** `submitResult`'s gate: an Arabic payload is sent as a new payload whose
      answers are translated, an English payload is sent as it is. */
  function Transmitted(data: Payload): (sent: Payload)
    ensures data.language == En ==> sent == data
    ensures sent.answers.Keys == data.answers.Keys
    ensures sent.(answers := data.answers) == data
    ensures data.language == Ar ==> sent.answers == TranslateAnswers(data.answers) && Canonical(sent.answers)
  {
    if data.language == Ar then data.(answers := TranslateAnswers(data.answers)) else data
  }

  /** An English session that only ever chose catalog options in English
      sends labels that are already canonical. */
  lemma EnglishPayloadIsCanonical(data: Payload)
    requires data.language == En
    requires forall k :: k in data.answers && data.answers[k].Str? ==> !ArabicScript(data.answers[k].text)
    ensures Canonical(Transmitted(data).answers)
  {
  }

  /** An answer offered by a catalog question translates to the English
      option at the position of the option it is. */
  lemma {:induction false} OfferedTranslatesPositionally(q: Question, a: Option<Answer>) returns (i: nat)
    requires q in Questions() && Offered(q, a)
    ensures i < |OptionsIn(q, En)| && i < |OptionsIn(q, Ar)|
    ensures a == Some(Str(OptionsIn(q, En)[i])) || a == Some(Str(OptionsIn(q, Ar)[i]))
    ensures TranslateOpt(a) == Some(Str(OptionsIn(q, En)[i]))
  {
    SameOptionCount(q);
    var s := a.value.text;
    if s in OptionsIn(q, En) {
      i :| 0 <= i < |OptionsIn(q, En)| && OptionsIn(q, En)[i] == s;
    } else {
      i :| 0 <= i < |OptionsIn(q, Ar)| && OptionsIn(q, Ar)[i] == s;
    }
    OptionsTranslatePositionally(q, i);
  }

  /** The answer is missing or one of the question's options, in either
      language: all a select input can store. */
  predicate FromOptions(q: Question, a: Option<Answer>)
  {
    a.None? || Offered(q, a)
  }

  /** Each of the ten select questions of the catalog is unanswered or
      answered with one of its own options: what the select inputs store. */
  predicate SelectAnswersOffered(m: AnswerSet)
  {
    && FromOptions(Gender, Get(m, Gender.id))
    && FromOptions(ActivityDays, Get(m, ActivityDays.id))
    && FromOptions(NutritionServings, Get(m, NutritionServings.id))
    && FromOptions(Smoking, Get(m, Smoking.id))
    && FromOptions(Stress, Get(m, Stress.id))
    && FromOptions(ChronicConditions, Get(m, ChronicConditions.id))
    && FromOptions(Water, Get(m, Water.id))
    && FromOptions(FastFood, Get(m, FastFood.id))
    && FromOptions(Coffee, Get(m, Coffee.id))
    && FromOptions(EnergyDrinks, Get(m, EnergyDrinks.id))
  }

  // Translation never changes a factor's penalty: an option of the factor's
  // question becomes the English option at the same position, and both
  // sit on the same tier. One factor per lemma.

  lemma ActivitySurvivesTranslation(a: Option<Answer>)
    requires FromOptions(ActivityDays, a)
    ensures Scoring.ActivityPenalty(TranslateOpt(a)) == Scoring.ActivityPenalty(a)
  {
    if a.Some? {
      CatalogMembers();
      var i := OfferedTranslatesPositionally(ActivityDays, a);
    }
  }

  lemma ActivityFeedbackSurvivesTranslation(a: Option<Answer>)
    requires FromOptions(ActivityDays, a)
    ensures Feedback.ActivityFeedback(TranslateOpt(a)) == Feedback.ActivityFeedback(a)
  {
    if a.Some? {
      CatalogMembers();
      var i := OfferedTranslatesPositionally(ActivityDays, a);
    }
  }

  lemma NutritionSurvivesTranslation(a: Option<Answer>)
    requires FromOptions(NutritionServings, a)
    ensures Scoring.NutritionPenalty(TranslateOpt(a)) == Scoring.NutritionPenalty(a)
  {
    if a.Some? {
      CatalogMembers();
      var i := OfferedTranslatesPositionally(NutritionServings, a);
    }
  }

  lemma NutritionFeedbackSurvivesTranslation(a: Option<Answer>)
    requires FromOptions(NutritionServings, a)
    ensures Feedback.NutritionFeedback(TranslateOpt(a)) == Feedback.NutritionFeedback(a)
  {
    if a.Some? {
      CatalogMembers();
      var i := OfferedTranslatesPositionally(NutritionServings, a);
    }
  }

  lemma SmokingSurvivesTranslation(a: Option<Answer>)
    requires FromOptions(Smoking, a)
    ensures Scoring.SmokingPenalty(TranslateOpt(a)) == Scoring.SmokingPenalty(a)
  {
    if a.Some? {
      CatalogMembers();
      var i := OfferedTranslatesPositionally(Smoking, a);
    }
  }

  lemma StressSurvivesTranslation(a: Option<Answer>)
    requires FromOptions(Stress, a)
    ensures Scoring.StressPenalty(TranslateOpt(a)) == Scoring.StressPenalty(a)
  {
    if a.Some? {
      CatalogMembers();
      var i := OfferedTranslatesPositionally(Stress, a);
    }
  }

  lemma WaterSurvivesTranslation(a: Option<Answer>)
    requires FromOptions(Water, a)
    ensures Scoring.WaterPenalty(TranslateOpt(a)) == Scoring.WaterPenalty(a)
  {
    if a.Some? {
      CatalogMembers();
      var i := OfferedTranslatesPositionally(Water, a);
    }
  }

  lemma FastFoodSurvivesTranslation(a: Option<Answer>)
    requires FromOptions(FastFood, a)
    ensures Scoring.FastFoodPenalty(TranslateOpt(a)) == Scoring.FastFoodPenalty(a)
  {
    if a.Some? {
      CatalogMembers();
      var i := OfferedTranslatesPositionally(FastFood, a);
    }
  }

  lemma CoffeeSurvivesTranslation(a: Option<Answer>)
    requires FromOptions(Coffee, a)
    ensures Scoring.CoffeePenalty(TranslateOpt(a)) == Scoring.CoffeePenalty(a)
  {
    if a.Some? {
      CatalogMembers();
      var i := OfferedTranslatesPositionally(Coffee, a);
    }
  }

  lemma EnergyDrinksSurvivesTranslation(a: Option<Answer>)
    requires FromOptions(EnergyDrinks, a)
    ensures Scoring.EnergyDrinksPenalty(TranslateOpt(a)) == Scoring.EnergyDrinksPenalty(a)
  {
    if a.Some? {
      CatalogMembers();
      var i := OfferedTranslatesPositionally(EnergyDrinks, a);
    }
  }

  /** Under the label the scorer tests as written, the Arabic "3-4" option
      costs nothing before translation and 5 points after it. */
  lemma NutritionAsWrittenChangesUnderTranslation()
    ensures var a := Some(Str(OptionsIn(NutritionServings, Ar)[2]));
      && Scoring.NutritionPenaltyAsWritten(a) == 0
      && Scoring.NutritionPenaltyAsWritten(TranslateOpt(a)) == 5
  {
    OptionsTranslatePositionally(NutritionServings, 2);
  }

  /** A nutrition option is never the label the source tests in place of
      the catalog's Arabic 3-4 option, and its translation is neither of
      the two labels on which the nutrition readings differ. */
  lemma NutritionLabelsApart(a: Option<Answer>)
    requires FromOptions(NutritionServings, a)
    ensures a != Some(Str("3-4 حصة"))
    ensures TranslateOpt(a) != Some(Str("3-4 حصص")) && TranslateOpt(a) != Some(Str("3-4 حصة"))
    ensures a == Some(Str("3-4 حصص")) ==> TranslateOpt(a) == Some(Str("3-4 servings"))
  {
    if a.Some? {
      CatalogMembers();
      var i := OfferedTranslatesPositionally(NutritionServings, a);
      var en := OptionsIn(NutritionServings, En);
      var ar := OptionsIn(NutritionServings, Ar);
      assert en == ["0 servings", "1-2 servings", "3-4 servings", "5+ servings"];
      assert ar == ["0 حصص", "1-2 حصة", "3-4 حصص", "5+ حصص"];
      if i == 0 {
        assert a == Some(Str("0 servings")) || a == Some(Str("0 حصص"));
      } else if i == 1 {
        assert a == Some(Str("1-2 servings")) || a == Some(Str("1-2 حصة"));
      } else if i == 2 {
        assert a == Some(Str("3-4 servings")) || a == Some(Str("3-4 حصص"));
      } else {
        assert a == Some(Str("5+ servings")) || a == Some(Str("5+ حصص"));
      }
    }
  }

  /** A nutrition option keeps its as-written penalty under translation,
      except the catalog's Arabic 3-4 option, which goes from 0 to 5. */
  lemma NutritionAsWrittenUnderTranslation(a: Option<Answer>)
    requires FromOptions(NutritionServings, a)
    ensures a != Some(Str("3-4 حصص")) ==> Scoring.NutritionPenaltyAsWritten(TranslateOpt(a)) == Scoring.NutritionPenaltyAsWritten(a)
    ensures a == Some(Str("3-4 حصص")) ==>
      Scoring.NutritionPenaltyAsWritten(a) == 0 && Scoring.NutritionPenaltyAsWritten(TranslateOpt(a)) == 5
  {
    NutritionLabelsApart(a);
    NutritionSurvivesTranslation(a);
    Scoring.NutritionReadingsDiffer(a);
    Scoring.NutritionReadingsDiffer(TranslateOpt(a));
  }

  /** A nutrition option keeps its as-written bucket under translation,
      except the catalog's Arabic 3-4 option, which goes from good to
      moderate. */
  lemma NutritionFeedbackAsWrittenUnderTranslation(a: Option<Answer>)
    requires FromOptions(NutritionServings, a)
    ensures a != Some(Str("3-4 حصص")) ==> Feedback.NutritionFeedbackAsWritten(TranslateOpt(a)) == Feedback.NutritionFeedbackAsWritten(a)
    ensures a == Some(Str("3-4 حصص")) ==>
      Feedback.NutritionFeedbackAsWritten(a) == Feedback.Good && Feedback.NutritionFeedbackAsWritten(TranslateOpt(a)) == Feedback.Moderate
  {
    NutritionLabelsApart(a);
    NutritionFeedbackSurvivesTranslation(a);
    Feedback.NutritionFeedbackReadingsDiffer(a);
    Feedback.NutritionFeedbackReadingsDiffer(TranslateOpt(a));
  }

  /** Looking an answer up after translation is translating the looked-up answer. */
  lemma GetTranslated(m: AnswerSet, id: string)
    ensures Get(TranslateAnswers(m), id) == TranslateOpt(Get(m, id))
  {
  }

  /** Translation keeps the BMI: height and weight are numbers. */
  lemma BmiSurvivesTranslation(m: AnswerSet)
    ensures Scoring.CalculateBmi(TranslateAnswers(m)) == Scoring.CalculateBmi(m)
  {
    GetTranslated(m, Height.id);
    GetTranslated(m, Weight.id);
  }

  /** Translation keeps each of the ten penalties. */
  lemma PenaltiesSurviveTranslation(m: AnswerSet, bmi: real)
    requires SelectAnswersOffered(m)
    ensures Scoring.PenaltiesOf(TranslateAnswers(m), bmi, Scoring.Corrected) == Scoring.PenaltiesOf(m, bmi, Scoring.Corrected)
  {
    CatalogMembers();
    GetTranslated(m, SleepHours.id);
    GetTranslated(m, ActivityDays.id);
    ActivitySurvivesTranslation(Get(m, ActivityDays.id));
    GetTranslated(m, NutritionServings.id);
    NutritionSurvivesTranslation(Get(m, NutritionServings.id));
    GetTranslated(m, Smoking.id);
    SmokingSurvivesTranslation(Get(m, Smoking.id));
    GetTranslated(m, Stress.id);
    StressSurvivesTranslation(Get(m, Stress.id));
    GetTranslated(m, Water.id);
    WaterSurvivesTranslation(Get(m, Water.id));
    GetTranslated(m, FastFood.id);
    FastFoodSurvivesTranslation(Get(m, FastFood.id));
    GetTranslated(m, Coffee.id);
    CoffeeSurvivesTranslation(Get(m, Coffee.id));
    GetTranslated(m, EnergyDrinks.id);
    EnergyDrinksSurvivesTranslation(Get(m, EnergyDrinks.id));
  }

  /** The server receives the BMI and the score that the answers the
      session kept give. */
  lemma ScoreSurvivesTranslation(m: AnswerSet)
    requires SelectAnswersOffered(m)
    ensures var bmi := Scoring.CalculateBmi(m);
      && Scoring.CalculateBmi(TranslateAnswers(m)) == bmi
      && Scoring.CalculateScore(TranslateAnswers(m), bmi, Scoring.Corrected) == Scoring.CalculateScore(m, bmi, Scoring.Corrected)
  {
    BmiSurvivesTranslation(m);
    PenaltiesSurviveTranslation(m, Scoring.CalculateBmi(m));
  }

  /** Feedback read from the translated answers is the feedback read from
      the original ones. */
  lemma FeedbackSurvivesTranslation(m: AnswerSet, bmi: real)
    requires SelectAnswersOffered(m)
    ensures Feedback.FeedbackFor(bmi, TranslateAnswers(m), Scoring.Corrected) == Feedback.FeedbackFor(bmi, m, Scoring.Corrected)
  {
    CatalogMembers();
    GetTranslated(m, SleepHours.id);
    GetTranslated(m, ActivityDays.id);
    ActivityFeedbackSurvivesTranslation(Get(m, ActivityDays.id));
    GetTranslated(m, NutritionServings.id);
    NutritionFeedbackSurvivesTranslation(Get(m, NutritionServings.id));
    ConcernsSurviveTranslation(m);
  }

  /** The scorer as written gives the translated answers the score of the
      answers the session kept, except when nutrition is the catalog's
      Arabic 3-4 option: translated, it costs 5 points more. */
  lemma {:induction false} ScoreAsWrittenUnderTranslation(m: AnswerSet)
    requires SelectAnswersOffered(m)
    ensures var bmi := Scoring.CalculateBmi(m); var a := Get(m, NutritionServings.id);
      Scoring.CalculateScore(TranslateAnswers(m), bmi, Scoring.AsWritten) ==
        Scoring.CalculateScore(m, bmi, Scoring.AsWritten) - (if a == Some(Str("3-4 حصص")) then 5 else 0)
  {
    var t := TranslateAnswers(m);
    var bmi := Scoring.CalculateBmi(m);
    PenaltiesSurviveTranslation(m, bmi);
    Scoring.ScoreReadingsDiffer(m, bmi);
    Scoring.ScoreReadingsDiffer(t, bmi);
    GetTranslated(m, NutritionServings.id);
    NutritionAsWrittenUnderTranslation(Get(m, NutritionServings.id));
  }

  /** The feedback as written reads the translated answers as it reads the
      kept ones, except when nutrition is the catalog's Arabic 3-4 option:
      translated, it reads moderate instead of good. */
  lemma {:induction false} FeedbackAsWrittenUnderTranslation(m: AnswerSet, bmi: real)
    requires SelectAnswersOffered(m)
    ensures var a := Get(m, NutritionServings.id);
      a != Some(Str("3-4 حصص")) ==>
        Feedback.FeedbackFor(bmi, TranslateAnswers(m), Scoring.AsWritten) == Feedback.FeedbackFor(bmi, m, Scoring.AsWritten)
    ensures var a := Get(m, NutritionServings.id);
      a == Some(Str("3-4 حصص")) ==>
        && Feedback.FeedbackFor(bmi, m, Scoring.AsWritten).nutrition == Feedback.Good
        && Feedback.FeedbackFor(bmi, TranslateAnswers(m), Scoring.AsWritten) ==
             Feedback.FeedbackFor(bmi, m, Scoring.AsWritten).(nutrition := Feedback.Moderate)
  {
    var t := TranslateAnswers(m);
    FeedbackSurvivesTranslation(m, bmi);
    Feedback.FeedbackReadingsDiffer(bmi, m);
    Feedback.FeedbackReadingsDiffer(bmi, t);
    GetTranslated(m, NutritionServings.id);
    NutritionFeedbackAsWrittenUnderTranslation(Get(m, NutritionServings.id));
  }

  /** The six lifestyle flags are the same before and after translation. */
  lemma ConcernsSurviveTranslation(m: AnswerSet)
    requires SelectAnswersOffered(m)
    ensures Feedback.Concerns(TranslateAnswers(m)) == Feedback.Concerns(m)
  {
    var t := TranslateAnswers(m);
    CatalogMembers();
    GetTranslated(m, Smoking.id);
    SmokingSurvivesTranslation(Get(m, Smoking.id));
    GetTranslated(m, Stress.id);
    StressSurvivesTranslation(Get(m, Stress.id));
    GetTranslated(m, Water.id);
    WaterSurvivesTranslation(Get(m, Water.id));
    GetTranslated(m, FastFood.id);
    FastFoodSurvivesTranslation(Get(m, FastFood.id));
    GetTranslated(m, Coffee.id);
    CoffeeSurvivesTranslation(Get(m, Coffee.id));
    GetTranslated(m, EnergyDrinks.id);
    EnergyDrinksSurvivesTranslation(Get(m, EnergyDrinks.id));
    Feedback.SmokingFlagIsPenalty(m);
    Feedback.SmokingFlagIsPenalty(t);
    Feedback.StressFlagIsPenalty(m);
    Feedback.StressFlagIsPenalty(t);
    Feedback.WaterFlagIsPenalty(m);
    Feedback.WaterFlagIsPenalty(t);
    Feedback.FastFoodFlagIsPenalty(m);
    Feedback.FastFoodFlagIsPenalty(t);
    Feedback.CoffeeFlagIsPenalty(m);
    Feedback.CoffeeFlagIsPenalty(t);
    Feedback.EnergyDrinksFlagIsPenalty(m);
    Feedback.EnergyDrinksFlagIsPenalty(t);
  }

  /** Why a submission failed: an HTTP client error, carrying the server's
      `message` field, the client's own message and the response status when
      there was a response, or any other thrown error with its message. */
  datatype Failure =
    | HttpFailure(serverMessage: Option<string>, message: string, status: Option<nat>)
    | OtherFailure(message: string)

  /** The outcome of the transport: the server's response, or a failure. */
  datatype Delivery = Delivered(assessmentId: Option<int>) | Rejected(failure: Failure)

  /** The decimal digits of `n`, as a template string prints a number. */
  function NatToString(n: nat): (s: string)
    ensures |s| >= 1
    ensures forall i :: 0 <= i < |s| ==> '0' <= s[i] <= '9'
    ensures s[0] == '0' ==> n == 0
    decreases n
  {
    var digit := ['0' + (n % 10) as char];
    if n < 10 then digit else NatToString(n / 10) + digit
  }

  /** The number a string of decimal digits denotes. */
  function DigitsValue(s: string): nat
    requires forall i :: 0 <= i < |s| ==> '0' <= s[i] <= '9'
  {
    if s == [] then 0 else DigitsValue(s[..|s| - 1]) * 10 + (s[|s| - 1] - '0') as nat
  }

  /** The printed status reads back as the status. */
  lemma {:induction false} NatToStringRoundTrip(n: nat)
    ensures DigitsValue(NatToString(n)) == n
    decreases n
  {
    var s := NatToString(n);
    if n >= 10 {
      NatToStringRoundTrip(n / 10);
      assert s[..|s| - 1] == NatToString(n / 10);
    }
  }

  /** The `${status || 'Unknown'}` part of the fallback message: the status
      in decimal, or "Unknown" when there is no status or it is 0. */
  function StatusText(status: Option<nat>): (t: string)
    ensures t == "Unknown" <==> status.None? || status.value == 0
    ensures t != "Unknown" ==> (forall i :: 0 <= i < |t| ==> '0' <= t[i] <= '9') && DigitsValue(t) == status.value
  {
    if status.Some? && status.value != 0 then
      NatToStringRoundTrip(status.value);
      NatToString(status.value)
    else
      "Unknown"
  }

  /** The message of the error `submitResult` throws: for an HTTP failure
      the server's message, else the client's, else "Server error: " and the
      status text; any other error is rethrown as it is. An HTTP failure
      therefore never throws an empty message. */
  function ThrownMessage(f: Failure): (msg: string)
    ensures f.HttpFailure? ==> msg != []
    ensures f.HttpFailure? && f.serverMessage.Some? && f.serverMessage.value != [] ==> msg == f.serverMessage.value
    ensures f.HttpFailure? && (f.serverMessage.None? || f.serverMessage.value == []) ==>
      msg == if f.message != [] then f.message else "Server error: " + StatusText(f.status)
    ensures f.OtherFailure? ==> msg == f.message
  {
    match f
    case HttpFailure(serverMessage, message, status) =>
      if serverMessage.Some? && serverMessage.value != [] then serverMessage.value
      else if message != [] then message
      else "Server error: " + StatusText(status)
    case OtherFailure(message) => message
  }
}
